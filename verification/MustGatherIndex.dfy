/**
 pkg/ocp/mustgather/index.go: the resource index, two maps that must agree with the plain
 list of resources they were built from.

 The selectors of a List call come down to a predicate on resources, or to a parse error.
 */
module MustGatherIndex {
  import opened Common
  import opened SortedStrings

  datatype GVK = GVK(group: string, version: string, kind: string)

  datatype Resource = Resource(gvk: GVK, namespace: string, name: string, content: string)

  type Bucket = map<string, Resource>
  type Selector = Resource -> bool

  function Key(namespace: string, name: string): string {
    if namespace == "" then name else namespace + "/" + name
  }

  class ResourceIndex {
    var byGVK: map<GVK, Bucket>
    var byNamespace: map<string, map<GVK, Bucket>>
    var namespaces: seq<string>
    var count: nat

    constructor ()
      ensures byGVK == map[] && byNamespace == map[] && namespaces == [] && count == 0
    {
      byGVK, byNamespace, namespaces, count := map[], map[], [], 0;
    }

    method Add(obj: Resource)
      modifies this
      ensures byGVK == WithGVK(old(byGVK), obj)
      ensures byNamespace == WithNamespace(old(byNamespace), obj)
      ensures count == old(count) + 1 && namespaces == old(namespaces)
    {
      var key := obj.name;
      if obj.namespace != "" {
        key := obj.namespace + "/" + obj.name;
      }
      if obj.gvk !in byGVK {
        byGVK := byGVK[obj.gvk := map[]];
      }
      byGVK := byGVK[obj.gvk := byGVK[obj.gvk][key := obj]];
      assert byGVK == WithGVK(old(byGVK), obj);
      if obj.namespace != "" {
        if obj.namespace !in byNamespace {
          byNamespace := byNamespace[obj.namespace := map[]];
        }
        ghost var found := byNamespace[obj.namespace];
        var inner := byNamespace[obj.namespace];
        if obj.gvk !in inner {
          inner := inner[obj.gvk := map[]];
        }
        inner := inner[obj.gvk := inner[obj.gvk][obj.name := obj]];
        assert inner == found[obj.gvk := (if obj.gvk in found then found[obj.gvk] else map[])[obj.name := obj]];
        byNamespace := byNamespace[obj.namespace := inner];
        assert byNamespace == WithNamespace(old(byNamespace), obj);
      }
      count := count + 1;
    }

    method BuildNamespaceList()
      modifies this`namespaces
      ensures StrictlySorted(namespaces)
      ensures forall ns :: ns in namespaces <==> ns in byNamespace
    {
      namespaces := SortedKeys(byNamespace.Keys);
    }

    method Get(gvk: GVK, name: string, namespace: string) returns (found: Option<Resource>)
      ensures found == Find(byGVK, gvk, Key(namespace, name))
    {
      if gvk !in byGVK { return None; }
      var bucket := byGVK[gvk];
      var key := name;
      if namespace != "" {
        key := namespace + "/" + name;
      }
      if key !in bucket { return None; }
      return Some(bucket[key]);
    }

    /** Which of too many matches a limit keeps depends on the map order; that they are distinct matches does not. */
    method List(gvk: GVK, namespace: string, selector: Option<Selector>, limit: int) returns (r: Result<seq<Resource>, string>)
      requires Keyed(byGVK) && NamespaceKeyed(byNamespace)
      ensures r.Err? <==> selector.None?
      ensures r.Ok? ==> var matching := Matching(Candidates(byGVK, byNamespace, gvk, namespace), selector.value);
                        && (forall x :: x in r.value ==> x in matching)
                        && (forall i, j :: 0 <= i < j < |r.value| ==> r.value[i] != r.value[j])
                        && |r.value| == (if 0 < limit < |matching| then limit else |matching|)
    {
      if selector.None? { return Err("invalid selector"); }
      ghost var matching := Matching(Candidates(byGVK, byNamespace, gvk, namespace), selector.value);
      var bucket: Bucket := map[];
      if namespace != "" {
        if namespace !in byNamespace || gvk !in byNamespace[namespace] { return Ok([]); }
        bucket := byNamespace[namespace][gvk];
      } else {
        if gvk !in byGVK { return Ok([]); }
        bucket := byGVK[gvk];
      }
      var items: seq<Resource> := [];
      var rest := bucket.Keys;
      while rest != {}
        invariant rest <= bucket.Keys
        invariant forall x :: x in items <==> exists k :: k in bucket.Keys - rest && bucket[k] == x && selector.value(x)
        invariant forall i, j :: 0 <= i < j < |items| ==> items[i] != items[j]
        decreases rest
      {
        var key :| key in rest;
        rest := rest - {key};
        if selector.value(bucket[key]) {
          assert forall k :: k in bucket && bucket[k] == bucket[key] ==> k == key;
          items := items + [bucket[key]];
        }
      }
      assert forall x :: x in items <==> x in matching;
      DistinctCount(items, matching);
      if 0 < limit < |items| {
        items := items[..limit];
      }
      r := Ok(items);
    }
  }

  lemma {:induction false} DistinctCount<T>(s: seq<T>, elements: set<T>)
    requires forall x :: x in s <==> x in elements
    requires forall i, j :: 0 <= i < j < |s| ==> s[i] != s[j]
    ensures |s| == |elements|
  {
    if s != [] {
      var n := |s| - 1;
      assert s == s[..n] + [s[n]];
      DistinctCount(s[..n], elements - {s[n]});
    } else {
      assert elements == {};
    }
  }

  method BuildIndex(resources: seq<Resource>) returns (idx: ResourceIndex)
    ensures fresh(idx)
    ensures idx.byGVK == ByGVK(resources) && idx.byNamespace == ByNamespace(resources)
    ensures idx.count == |resources|
    ensures StrictlySorted(idx.namespaces)
    ensures forall ns :: ns in idx.namespaces <==> ns != "" && exists r :: r in resources && r.namespace == ns
  {
    idx := new ResourceIndex();
    for i := 0 to |resources|
      invariant idx.byGVK == ByGVK(resources[..i]) && idx.byNamespace == ByNamespace(resources[..i])
      invariant idx.count == i
      invariant fresh(idx)
    {
      assert resources[..i + 1][..i] == resources[..i];
      idx.Add(resources[i]);
    }
    assert resources[..|resources|] == resources;
    NamespacesCovered(resources);
    idx.BuildNamespaceList();
  }

  // ---------------------------------------------------------------- what the maps hold

  function WithGVK(m: map<GVK, Bucket>, obj: Resource): map<GVK, Bucket> {
    m[obj.gvk := (if obj.gvk in m then m[obj.gvk] else map[])[Key(obj.namespace, obj.name) := obj]]
  }

  function WithNamespace(m: map<string, map<GVK, Bucket>>, obj: Resource): map<string, map<GVK, Bucket>> {
    if obj.namespace == "" then m
    else
      var inner := if obj.namespace in m then m[obj.namespace] else map[];
      m[obj.namespace := inner[obj.gvk := (if obj.gvk in inner then inner[obj.gvk] else map[])[obj.name := obj]]]
  }

  function ByGVK(resources: seq<Resource>): map<GVK, Bucket> {
    if resources == [] then map[]
    else WithGVK(ByGVK(resources[..|resources| - 1]), resources[|resources| - 1])
  }

  function ByNamespace(resources: seq<Resource>): map<string, map<GVK, Bucket>> {
    if resources == [] then map[]
    else WithNamespace(ByNamespace(resources[..|resources| - 1]), resources[|resources| - 1])
  }

  function Find(m: map<GVK, Bucket>, gvk: GVK, key: string): Option<Resource> {
    if gvk in m && key in m[gvk] then Some(m[gvk][key]) else None
  }

  function FindNamespaced(m: map<string, map<GVK, Bucket>>, namespace: string, gvk: GVK, name: string): Option<Resource> {
    if namespace in m then Find(m[namespace], gvk, name) else None
  }

  /** The last resource of the list with this identity. */
  function Last(resources: seq<Resource>, gvk: GVK, namespace: string, name: string): (r: Option<Resource>) {
    if resources == [] then None
    else
      var obj := resources[|resources| - 1];
      if obj.gvk == gvk && obj.namespace == namespace && obj.name == name then Some(obj)
      else Last(resources[..|resources| - 1], gvk, namespace, name)
  }

  lemma {:induction false} LastMeaning(resources: seq<Resource>, gvk: GVK, namespace: string, name: string, i: nat)
    requires i < |resources|
    requires resources[i].gvk == gvk && resources[i].namespace == namespace && resources[i].name == name
    requires forall j :: i < j < |resources| ==>
               !(resources[j].gvk == gvk && resources[j].namespace == namespace && resources[j].name == name)
    ensures Last(resources, gvk, namespace, name) == Some(resources[i])
  {
    if i < |resources| - 1 {
      LastMeaning(resources[..|resources| - 1], gvk, namespace, name, i);
    }
  }

  /** No slash in a namespace, nor in the name of a cluster-scoped object. */
  predicate PlainId(namespace: string, name: string) {
    '/' !in namespace && (namespace == "" ==> '/' !in name)
  }

  predicate Plain(resources: seq<Resource>) {
    forall r :: r in resources ==> PlainId(r.namespace, r.name)
  }

  /** Plain identities have distinct keys: the first slash of a key ends the namespace. */
  lemma KeyInjective(ns1: string, name1: string, ns2: string, name2: string)
    requires PlainId(ns1, name1) && PlainId(ns2, name2)
    ensures Key(ns1, name1) == Key(ns2, name2) <==> ns1 == ns2 && name1 == name2
  {
    var k1, k2 := Key(ns1, name1), Key(ns2, name2);
    KeyParts(ns1, name1);
    KeyParts(ns2, name2);
    if k1 == k2 && ns1 != "" && ns2 != "" {
      assert |ns1| == |ns2|;
    }
  }

  lemma KeyParts(namespace: string, name: string)
    ensures namespace != "" ==>
              var k := Key(namespace, name);
              && k[|namespace|] == '/' && k[..|namespace|] == namespace && k[|namespace| + 1..] == name
              && forall i :: 0 <= i < |namespace| ==> k[i] == namespace[i]
  {
  }

  /** Get answers with the last resource added under that identity. */
  lemma {:induction false} GetIsLast(resources: seq<Resource>, gvk: GVK, namespace: string, name: string)
    requires Plain(resources) && PlainId(namespace, name)
    ensures Find(ByGVK(resources), gvk, Key(namespace, name)) == Last(resources, gvk, namespace, name)
  {
    if resources != [] {
      var front, obj := resources[..|resources| - 1], resources[|resources| - 1];
      GetIsLast(front, gvk, namespace, name);
      KeyInjective(obj.namespace, obj.name, namespace, name);
    }
  }

  /** The namespace view answers with the last resource too, and there no two identities share a key. */
  lemma {:induction false} NamespaceViewIsLast(resources: seq<Resource>, gvk: GVK, namespace: string, name: string)
    requires namespace != ""
    ensures FindNamespaced(ByNamespace(resources), namespace, gvk, name) == Last(resources, gvk, namespace, name)
  {
    if resources != [] {
      NamespaceViewIsLast(resources[..|resources| - 1], gvk, namespace, name);
    }
  }

  /** After every Add the two views answer alike. */
  lemma ViewsAgree(resources: seq<Resource>, gvk: GVK, namespace: string, name: string)
    requires Plain(resources) && PlainId(namespace, name) && namespace != ""
    ensures Find(ByGVK(resources), gvk, Key(namespace, name))
         == FindNamespaced(ByNamespace(resources), namespace, gvk, name)
  {
    GetIsLast(resources, gvk, namespace, name);
    NamespaceViewIsLast(resources, gvk, namespace, name);
  }

  // ---------------------------------------------------------------- lists with slashes

  /** The last resource of the list with this kind and this key. */
  function LastUnderKey(resources: seq<Resource>, gvk: GVK, key: string): (r: Option<Resource>)
    ensures r.Some? ==> r.value in resources && r.value.gvk == gvk && Key(r.value.namespace, r.value.name) == key
  {
    if resources == [] then None
    else
      var obj := resources[|resources| - 1];
      if obj.gvk == gvk && Key(obj.namespace, obj.name) == key then Some(obj)
      else LastUnderKey(resources[..|resources| - 1], gvk, key)
  }

  lemma {:induction false} FindIsLastUnderKey(resources: seq<Resource>, gvk: GVK, key: string)
    ensures Find(ByGVK(resources), gvk, key) == LastUnderKey(resources, gvk, key)
  {
    if resources != [] {
      FindIsLastUnderKey(resources[..|resources| - 1], gvk, key);
    }
  }

  /** Whatever is last under the key of an identity is last of that identity, unless it has another one. */
  lemma {:induction false} LastUnderOwnKey(resources: seq<Resource>, gvk: GVK, namespace: string, name: string)
    ensures var r := LastUnderKey(resources, gvk, Key(namespace, name));
            if r.None? || (r.value.namespace == namespace && r.value.name == name)
            then Last(resources, gvk, namespace, name) == r
            else Last(resources, gvk, namespace, name) != r
  {
    if resources != [] {
      LastUnderOwnKey(resources[..|resources| - 1], gvk, namespace, name);
      LastHasIdentity(resources, gvk, namespace, name);
    }
  }

  lemma {:induction false} LastHasIdentity(resources: seq<Resource>, gvk: GVK, namespace: string, name: string)
    ensures var r := Last(resources, gvk, namespace, name); r.Some? ==> r.value.namespace == namespace && r.value.name == name
  {
    if resources != [] {
      LastHasIdentity(resources[..|resources| - 1], gvk, namespace, name);
    }
  }

  /**
   A resource that cannot answer for another object: one without a slash in its namespace or
   cluster-scoped name, or whose key begins with a slash, as no plain identity's does.
   */
  predicate Harmless(r: Resource) {
    var id := r.namespace + r.name;
    PlainId(r.namespace, r.name) || (id != "" && id[0] == '/')
  }

  /** No harmful resource is the last of its kind under its key. */
  predicate NoImpostor(resources: seq<Resource>) {
    forall r :: r in resources && LastUnderKey(resources, r.gvk, Key(r.namespace, r.name)) == Some(r) ==> Harmless(r)
  }

  /** The plain identity whose key a resource has that is not harmless. */
  lemma Impersonated(r: Resource) returns (namespace: string, name: string)
    requires !Harmless(r)
    ensures namespace != "" && PlainId(namespace, name) && Key(namespace, name) == Key(r.namespace, r.name)
    ensures namespace != r.namespace
  {
    var key := Key(r.namespace, r.name);
    var parts := if r.namespace == "" then r.name else r.namespace;
    var i := FirstSlash(parts);
    namespace, name := key[..i], key[i + 1..];
    assert key[..i] == parts[..i] && key[i] == '/';
    assert key == key[..i] + "/" + key[i + 1..];
  }

  lemma {:induction false} FirstSlash(s: string) returns (i: nat)
    requires '/' in s
    ensures i < |s| && s[i] == '/' && '/' !in s[..i]
  {
    if s[0] == '/' {
      i := 0;
    } else {
      assert s == [s[0]] + s[1..];
      i := FirstSlash(s[1..]);
      i := i + 1;
      assert s[..i] == [s[0]] + s[1..][..i - 1];
    }
  }

  /** A harmless resource under the key of a plain identity has that identity. */
  lemma HarmlessUnderPlainKey(r: Resource, namespace: string, name: string)
    requires Harmless(r) && PlainId(namespace, name) && Key(r.namespace, r.name) == Key(namespace, name)
    ensures r.namespace == namespace && r.name == name
  {
    var key, id := Key(namespace, name), r.namespace + r.name;
    assert id != "" ==> key != "" && key[0] == id[0];
    assert namespace != "" ==> namespace[0] in namespace && key[0] == namespace[0];
    assert namespace == "" && name != "" ==> name[0] in name && key[0] == name[0];
    if PlainId(r.namespace, r.name) {
      KeyInjective(r.namespace, r.name, namespace, name);
    }
  }

  /** Get answers for every plain identity with its last resource, and the two views agree. */
  ghost predicate GetIsAlwaysLast(resources: seq<Resource>) {
    forall gvk, namespace, name :: PlainId(namespace, name) ==>
      Find(ByGVK(resources), gvk, Key(namespace, name)) == Last(resources, gvk, namespace, name)
  }

  ghost predicate ViewsAlwaysAgree(resources: seq<Resource>) {
    forall gvk, namespace, name :: PlainId(namespace, name) && namespace != "" ==>
      Find(ByGVK(resources), gvk, Key(namespace, name)) == FindNamespaced(ByNamespace(resources), namespace, gvk, name)
  }

  lemma NoImpostorAnswers(resources: seq<Resource>, gvk: GVK, namespace: string, name: string)
    requires NoImpostor(resources) && PlainId(namespace, name)
    ensures Find(ByGVK(resources), gvk, Key(namespace, name)) == Last(resources, gvk, namespace, name)
  {
    var key := Key(namespace, name);
    FindIsLastUnderKey(resources, gvk, key);
    LastUnderOwnKey(resources, gvk, namespace, name);
    var r := LastUnderKey(resources, gvk, key);
    if r.Some? {
      HarmlessUnderPlainKey(r.value, namespace, name);
    }
  }

  lemma ImpostorAnswers(resources: seq<Resource>, r: Resource) returns (namespace: string, name: string)
    requires LastUnderKey(resources, r.gvk, Key(r.namespace, r.name)) == Some(r) && !Harmless(r)
    ensures namespace != "" && PlainId(namespace, name)
    ensures Find(ByGVK(resources), r.gvk, Key(namespace, name)) != Last(resources, r.gvk, namespace, name)
  {
    namespace, name := Impersonated(r);
    FindIsLastUnderKey(resources, r.gvk, Key(namespace, name));
    LastUnderOwnKey(resources, r.gvk, namespace, name);
  }

  /**
   For any list of resources: Get answers for every plain identity with the last resource of
   that identity exactly when no resource with a slash in its namespace or cluster-scoped name,
   behind something else, is the last of its kind under its key.
   */
  lemma {:induction false} GetIsLastExactlyWhen(resources: seq<Resource>)
    ensures GetIsAlwaysLast(resources) <==> NoImpostor(resources)
  {
    if NoImpostor(resources) {
      forall gvk, namespace, name | PlainId(namespace, name)
        ensures Find(ByGVK(resources), gvk, Key(namespace, name)) == Last(resources, gvk, namespace, name)
      {
        NoImpostorAnswers(resources, gvk, namespace, name);
      }
    } else {
      var r :| r in resources && LastUnderKey(resources, r.gvk, Key(r.namespace, r.name)) == Some(r) && !Harmless(r);
      var namespace, name := ImpostorAnswers(resources, r);
    }
  }

  /** And the two views agree on every plain namespaced identity under the same condition. */
  lemma {:induction false} ViewsAgreeExactlyWhen(resources: seq<Resource>)
    ensures ViewsAlwaysAgree(resources) <==> NoImpostor(resources)
  {
    if NoImpostor(resources) {
      forall gvk, namespace, name | PlainId(namespace, name) && namespace != ""
        ensures Find(ByGVK(resources), gvk, Key(namespace, name)) == FindNamespaced(ByNamespace(resources), namespace, gvk, name)
      {
        NoImpostorAnswers(resources, gvk, namespace, name);
        NamespaceViewIsLast(resources, gvk, namespace, name);
      }
    } else {
      var r :| r in resources && LastUnderKey(resources, r.gvk, Key(r.namespace, r.name)) == Some(r) && !Harmless(r);
      var namespace, name := ImpostorAnswers(resources, r);
      NamespaceViewIsLast(resources, r.gvk, namespace, name);
    }
  }

  /** Why the views need plain identities: a slash in a cluster-scoped name lets it answer for another object. */
  lemma SlashInClusterName(gvk: GVK)
    ensures var bare, nested := Resource(gvk, "", "a/b", "bare"), Resource(gvk, "a", "b", "nested");
            && Find(ByGVK([nested, bare]), gvk, Key("a", "b")) == Some(bare)
            && FindNamespaced(ByNamespace([nested, bare]), "a", gvk, "b") == Some(nested)
  {
    var bare, nested := Resource(gvk, "", "a/b", "bare"), Resource(gvk, "a", "b", "nested");
    var both := [nested, bare];
    assert both[..1] == [nested] && [nested][..0] == [];
    assert Key("a", "b") == "a/b" == Key("", "a/b");
  }

  lemma {:induction false} NamespacesCovered(resources: seq<Resource>)
    ensures forall ns :: ns in ByNamespace(resources) <==> ns != "" && exists r :: r in resources && r.namespace == ns
  {
    if resources != [] {
      var front, obj := resources[..|resources| - 1], resources[|resources| - 1];
      assert resources == front + [obj];
      NamespacesCovered(front);
    }
  }

  // ---------------------------------------------------------------- what List ranges over

  predicate Keyed(m: map<GVK, Bucket>) {
    forall gvk, k :: gvk in m && k in m[gvk] ==>
      m[gvk][k].gvk == gvk && Key(m[gvk][k].namespace, m[gvk][k].name) == k
  }

  predicate NamespaceKeyed(m: map<string, map<GVK, Bucket>>) {
    forall ns, gvk, k :: ns in m && gvk in m[ns] && k in m[ns][gvk] ==>
      m[ns][gvk][k].gvk == gvk && m[ns][gvk][k].namespace == ns && m[ns][gvk][k].name == k
  }

  /** Every resource sits under its own key, whatever was added. */
  lemma {:induction false} BuiltIndexIsKeyed(resources: seq<Resource>)
    ensures Keyed(ByGVK(resources)) && NamespaceKeyed(ByNamespace(resources))
  {
    if resources != [] {
      BuiltIndexIsKeyed(resources[..|resources| - 1]);
    }
  }

  ghost function Candidates(byGVK: map<GVK, Bucket>, byNamespace: map<string, map<GVK, Bucket>>,
                            gvk: GVK, namespace: string): Bucket
  {
    if namespace != "" then
      if namespace in byNamespace && gvk in byNamespace[namespace] then byNamespace[namespace][gvk] else map[]
    else
      if gvk in byGVK then byGVK[gvk] else map[]
  }

  ghost function Matching(bucket: Bucket, selector: Selector): set<Resource> {
    set k | k in bucket && selector(bucket[k]) :: bucket[k]
  }

  /** What a List call is asked for, said of the plain list of resources. */
  ghost predicate Wanted(resources: seq<Resource>, gvk: GVK, namespace: string, selector: Selector, r: Resource) {
    && r.gvk == gvk && (namespace == "" || r.namespace == namespace) && selector(r)
    && Last(resources, gvk, r.namespace, r.name) == Some(r)
  }

  /** No two identities of this kind share a key in the index. */
  predicate NoSharedKeys(resources: seq<Resource>, gvk: GVK) {
    forall a, b :: a in resources && b in resources && a.gvk == gvk && b.gvk == gvk
                   && Key(a.namespace, a.name) == Key(b.namespace, b.name) ==>
      a.namespace == b.namespace && a.name == b.name
  }

  lemma PlainSharesNoKeys(resources: seq<Resource>, gvk: GVK)
    requires Plain(resources)
    ensures NoSharedKeys(resources, gvk)
  {
    forall a, b | a in resources && b in resources && Key(a.namespace, a.name) == Key(b.namespace, b.name)
      ensures a.namespace == b.namespace && a.name == b.name
    {
      KeyInjective(a.namespace, a.name, b.namespace, b.name);
    }
  }

  /** What a query over all namespaces ranges over: the last resource under each key. */
  lemma ClusterWideHolds(resources: seq<Resource>, gvk: GVK, selector: Selector, r: Resource)
    ensures r in Matching(Candidates(ByGVK(resources), ByNamespace(resources), gvk, ""), selector)
       <==> r.gvk == gvk && selector(r) && LastUnderKey(resources, gvk, Key(r.namespace, r.name)) == Some(r)
  {
    BuiltIndexIsKeyed(resources);
    FindIsLastUnderKey(resources, gvk, Key(r.namespace, r.name));
  }

  /**
   Whatever the list, List ranges over wanted resources only: matching, and not superseded by a
   later one of the same identity. It misses none of them in a namespace, and none in a query
   over all namespaces when no two identities of the kind share a key.
   */
  lemma ListRangesOverWanted(resources: seq<Resource>, gvk: GVK, namespace: string, selector: Selector, r: Resource)
    ensures var matching := Matching(Candidates(ByGVK(resources), ByNamespace(resources), gvk, namespace), selector);
            && (r in matching ==> Wanted(resources, gvk, namespace, selector, r))
            && (namespace != "" || NoSharedKeys(resources, gvk) ==>
                  (r in matching <==> Wanted(resources, gvk, namespace, selector, r)))
  {
    if namespace != "" {
      BuiltIndexIsKeyed(resources);
      if r.namespace == namespace {
        NamespaceViewIsLast(resources, gvk, r.namespace, r.name);
      }
    } else {
      ClusterWideHolds(resources, gvk, selector, r);
      LastUnderOwnKey(resources, gvk, r.namespace, r.name);
      LastHasIdentity(resources, gvk, r.namespace, r.name);
      LastIsInList(resources, gvk, r.namespace, r.name);
    }
  }

  /** A query over all namespaces misses no wanted resource, whatever the selector. */
  ghost predicate ListsAllWanted(resources: seq<Resource>, gvk: GVK) {
    forall selector, r :: Wanted(resources, gvk, "", selector, r) ==>
      r in Matching(Candidates(ByGVK(resources), ByNamespace(resources), gvk, ""), selector)
  }

  /** That is so exactly when no two identities of the kind share a key. */
  lemma {:induction false} ListsAllWantedExactlyWhen(resources: seq<Resource>, gvk: GVK)
    ensures ListsAllWanted(resources, gvk) <==> NoSharedKeys(resources, gvk)
  {
    if NoSharedKeys(resources, gvk) {
      forall selector, r | Wanted(resources, gvk, "", selector, r)
        ensures r in Matching(Candidates(ByGVK(resources), ByNamespace(resources), gvk, ""), selector)
      {
        ListRangesOverWanted(resources, gvk, "", selector, r);
      }
    } else {
      var a, b :| a in resources && b in resources && a.gvk == gvk && b.gvk == gvk
                  && Key(a.namespace, a.name) == Key(b.namespace, b.name) && (a.namespace, a.name) != (b.namespace, b.name);
      var r := HiddenResource(resources, gvk, a, b);
      ClusterWideHolds(resources, gvk, _ => true, r);
      assert Wanted(resources, gvk, "", _ => true, r);
    }
  }

  /** Of two identities with one key, the last resource of one is hidden. */
  lemma HiddenResource(resources: seq<Resource>, gvk: GVK, a: Resource, b: Resource) returns (r: Resource)
    requires a in resources && b in resources && a.gvk == gvk && b.gvk == gvk
    requires Key(a.namespace, a.name) == Key(b.namespace, b.name) && (a.namespace, a.name) != (b.namespace, b.name)
    ensures r.gvk == gvk && Last(resources, gvk, r.namespace, r.name) == Some(r)
    ensures LastUnderKey(resources, gvk, Key(r.namespace, r.name)) != Some(r)
  {
    var winner := LastUnderKey(resources, gvk, Key(a.namespace, a.name));
    var hidden := if winner.Some? && (winner.value.namespace, winner.value.name) == (a.namespace, a.name) then b else a;
    LastExists(resources, hidden);
    LastHasIdentity(resources, gvk, hidden.namespace, hidden.name);
    r := Last(resources, gvk, hidden.namespace, hidden.name).value;
  }

  lemma {:induction false} LastExists(resources: seq<Resource>, r: Resource)
    requires r in resources
    ensures Last(resources, r.gvk, r.namespace, r.name).Some? && Last(resources, r.gvk, r.namespace, r.name).value.gvk == r.gvk
  {
    var n := |resources| - 1;
    if resources[n].gvk != r.gvk || resources[n].namespace != r.namespace || resources[n].name != r.name {
      assert resources == resources[..n] + [resources[n]];
      LastExists(resources[..n], r);
    }
  }

  lemma {:induction false} LastIsInList(resources: seq<Resource>, gvk: GVK, namespace: string, name: string)
    ensures Last(resources, gvk, namespace, name).Some? ==> Last(resources, gvk, namespace, name).value in resources
  {
    if resources != [] {
      LastIsInList(resources[..|resources| - 1], gvk, namespace, name);
    }
  }
}
