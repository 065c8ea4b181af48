/**
 pkg/kubernetes/accesscontrol_round_tripper.go: what the access-control layer reads off a
 Kubernetes REST path, against the paths that clients build (pkg/kubernetes/resources.go).
 */
module RestPaths {
  import opened Common
  import opened Strings

  const NAMESPACES := "namespaces"

  datatype GVR = GVR(group: string, version: string, resource: string)

  function Parts(path: string): (parts: seq<string>)
    ensures parts != []
  {
    Split(Trim(path, '/'), '/')
  }

  function ParseURLToGVR(path: string): Option<GVR> {
    var parts := Parts(path);
    if parts[0] == "api" then
      if |parts| < 3 then None
      else if parts[2] == NAMESPACES && |parts| > 4 then Some(GVR("", parts[1], parts[4]))
      else Some(GVR("", parts[1], parts[2]))
    else if parts[0] == "apis" then
      if |parts| < 4 then None
      else if parts[3] == NAMESPACES && |parts| > 5 then Some(GVR(parts[1], parts[2], parts[5]))
      else Some(GVR(parts[1], parts[2], parts[3]))
    else None
  }

  function FindResourceTypeIndex(parts: seq<string>): (i: int)
    ensures -1 <= i < |parts|
  {
    if |parts| == 0 then -1
    else if parts[0] == "api" then
      if |parts| < 3 then -1
      else if parts[2] == NAMESPACES && |parts| > 4 then 4
      else 2
    else if parts[0] == "apis" then
      if |parts| < 4 then -1
      else if parts[3] == NAMESPACES && |parts| > 5 then 5
      else 3
    else -1
  }

  ghost predicate NoneBefore(parts: seq<string>, i: nat) {
    forall j :: 0 <= j < i && j < |parts| - 1 ==> parts[j] != "namespaces"
  }

  /** The segment after the first "namespaces" that has one, or "". */
  ghost predicate IsNamespaceOf(parts: seq<string>, namespace: string) {
    if NoneBefore(parts, |parts|) then namespace == ""
    else exists i :: 0 <= i < |parts| - 1 && NoneBefore(parts, i) && parts[i] == "namespaces" && namespace == parts[i + 1]
  }

  function NamespaceFrom(parts: seq<string>, i: nat): string
    requires i <= |parts|
    decreases |parts| - i
  {
    if i + 1 >= |parts| then ""
    else if parts[i] == NAMESPACES then parts[i + 1]
    else NamespaceFrom(parts, i + 1)
  }

  function NameIn(parts: seq<string>): string {
    var i := FindResourceTypeIndex(parts);
    if i >= 0 && i + 1 < |parts| then parts[i + 1] else ""
  }

  method ParseURLToNamespaceAndName(path: string) returns (namespace: string, name: string)
    ensures IsNamespaceOf(Parts(path), namespace)
    ensures namespace == NamespaceFrom(Parts(path), 0)
    ensures name == NameIn(Parts(path))
  {
    var parts := Parts(path);
    namespace, name := "", "";
    var i := 0;
    while i < |parts|
      invariant 0 <= i <= |parts|
      invariant namespace == ""
      invariant NoneBefore(parts, i)
      invariant NamespaceFrom(parts, 0) == NamespaceFrom(parts, i)
    {
      if parts[i] == NAMESPACES && i + 1 < |parts| {
        namespace := parts[i + 1];
        break;
      }
      i := i + 1;
    }
    var resourceIdx := FindResourceTypeIndex(parts);
    if resourceIdx >= 0 && resourceIdx + 1 < |parts| {
      name := parts[resourceIdx + 1];
    }
  }

  function ParseSubresource(path: string): string {
    var parts := Parts(path);
    var i := FindResourceTypeIndex(parts);
    if i >= 0 && i + 2 < |parts| then parts[i + 2] else ""
  }

  predicate IsCollectionPath(path: string) {
    var parts := Parts(path);
    var i := FindResourceTypeIndex(parts);
    i >= 0 && i == |parts| - 1
  }

  /** strings.ToLower on ASCII, which is what HTTP method names are made of. */
  function ToLower(s: string): string {
    if s == "" then ""
    else
      var lowered := if 'A' <= s[0] && s[0] <= 'Z' then (s[0] as int + 32) as char else s[0];
      [lowered] + ToLower(s[1..])
  }

  function HttpMethodToVerb(httpMethod: string, path: string): string {
    if httpMethod == "GET" then (if IsCollectionPath(path) then "list" else "get")
    else if httpMethod == "POST" then "create"
    else if httpMethod == "PUT" then "update"
    else if httpMethod == "PATCH" then "patch"
    else if httpMethod == "DELETE" then (if IsCollectionPath(path) then "deletecollection" else "delete")
    else ToLower(httpMethod)
  }

  function StripAPIPathPrefix(path: string, prefix: string): string {
    var trimmed := TrimSuffixChar(prefix, '/');
    if trimmed == "" then path
    else if path == trimmed then "/"
    else if HasPrefix(path, trimmed + "/") then path[|trimmed|..]
    else path
  }

  /** The two parsers that look for the resource type agree on every path. */
  lemma ParsersAgree(path: string)
    ensures var parts, i := Parts(path), FindResourceTypeIndex(Parts(path));
            && (ParseURLToGVR(path).Some? <==> i >= 0)
            && (i >= 0 ==> ParseURLToGVR(path).value.resource == parts[i])
  {
    var parts := Parts(path);
    if parts[0] != "api" && parts[0] != "apis" {
      assert FindResourceTypeIndex(parts) == -1;
    }
  }

  // ---------------------------------------------------------------- built paths

  /** What a request is about. No namespace is cluster scope; a subresource needs a name. */
  datatype Target = Target(group: string, version: string, namespace: string,
                           resource: string, name: string, subresource: string)

  predicate Segment(s: string) {
    s != "" && '/' !in s
  }

  predicate WellFormed(t: Target) {
    && '/' !in t.group && Segment(t.version) && '/' !in t.namespace
    && Segment(t.resource) && '/' !in t.name && '/' !in t.subresource
    && (t.subresource != "" ==> t.name != "")
  }

  function Segments(t: Target): (segments: seq<string>) {
    (if t.group == "" then ["api"] else ["apis", t.group])
    + [t.version]
    + (if t.namespace != "" then ["namespaces", t.namespace] else [])
    + [t.resource]
    + (if t.name != "" then [t.name] else [])
    + (if t.subresource != "" then [t.subresource] else [])
  }

  function BuildPath(t: Target): string {
    "/" + Join(Segments(t), '/')
  }

  lemma PartsOfBuilt(t: Target)
    requires WellFormed(t)
    ensures Parts(BuildPath(t)) == Segments(t)
  {
    var segments := Segments(t);
    JoinEnds(segments, '/');
    var joined := Join(segments, '/');
    assert ("/" + joined)[1..] == joined;
    assert TrimLeft("/" + joined, '/') == TrimLeft(joined, '/') == joined;
    SplitJoin(segments, '/');
  }

  /** Everything RoundTrip reads off the path is what the path was built from. */
  predicate Recovered(t: Target) {
    var path := BuildPath(t);
    && ParseURLToGVR(path) == Some(GVR(t.group, t.version, t.resource))
    && NamespaceFrom(Parts(path), 0) == t.namespace
    && NameIn(Parts(path)) == t.name
    && ParseSubresource(path) == t.subresource
    && HttpMethodToVerb("GET", path) == (if t.name == "" then "list" else "get")
    && HttpMethodToVerb("DELETE", path) == (if t.name == "" then "deletecollection" else "delete")
    && HttpMethodToVerb("POST", path) == "create"
    && HttpMethodToVerb("PUT", path) == "update"
    && HttpMethodToVerb("PATCH", path) == "patch"
    && HttpMethodToVerb("HEAD", path) == "head"
  }

  /** Other methods are their own verbs in lower case, whatever the path. */
  lemma OtherMethods(httpMethod: string, path: string)
    requires httpMethod !in {"GET", "POST", "PUT", "PATCH", "DELETE"}
    ensures var verb := HttpMethodToVerb(httpMethod, path);
            && |verb| == |httpMethod|
            && forall i :: 0 <= i < |verb| ==>
                 if 'A' <= httpMethod[i] <= 'Z' then verb[i] as int == httpMethod[i] as int + 32 else verb[i] == httpMethod[i]
  {
    LowerEach(httpMethod);
  }

  lemma {:induction false} LowerEach(s: string)
    ensures |ToLower(s)| == |s|
    ensures forall i :: 0 <= i < |s| ==>
              if 'A' <= s[i] <= 'Z' then ToLower(s)[i] as int == s[i] as int + 32 else ToLower(s)[i] == s[i]
  {
    if s != "" {
      LowerEach(s[1..]);
    }
  }

  /**
   The targets whose segment "namespaces" misleads the parsers: a named namespace (or a
   cluster-scoped object of that name with a subresource), and an API group or version of
   that name, unless what follows it happens to be the namespace.
   */
  predicate Unambiguous(t: Target) {
    && !(t.namespace == "" && t.resource == NAMESPACES && t.name != "")
    && !(t.namespace == "" && t.name == NAMESPACES && t.subresource != "")
    && (t.group == NAMESPACES ==> t.namespace == t.version)
    && (t.group != NAMESPACES && t.version == NAMESPACES ==> t.namespace == NAMESPACES)
  }

  lemma NamespaceAt(parts: seq<string>, i: nat)
    requires i + 1 < |parts| && parts[i] == NAMESPACES
    requires forall j :: 0 <= j < i ==> parts[j] != NAMESPACES
    ensures NamespaceFrom(parts, 0) == parts[i + 1]
  {
    var k := i;
    while k > 0
      invariant 0 <= k <= i && NamespaceFrom(parts, k) == parts[i + 1]
    {
      k := k - 1;
    }
  }

  lemma {:induction false} NoNamespace(parts: seq<string>, i: nat)
    requires i <= |parts|
    requires forall j :: i <= j < |parts| - 1 ==> parts[j] != NAMESPACES
    ensures NamespaceFrom(parts, i) == ""
    decreases |parts| - i
  {
    if i + 1 < |parts| { NoNamespace(parts, i + 1); }
  }

  /** The parsed namespace of a built path, whatever the target is. */
  lemma NamespaceOfBuilt(t: Target)
    requires WellFormed(t)
    ensures NamespaceFrom(Segments(t), 0) == t.namespace <==> Unambiguous(t)
  {
    var parts := Segments(t);
    var v := if t.group == "" then 1 else 2;
    assert parts[v] == t.version;
    if t.group == NAMESPACES {
      NamespaceAt(parts, 1);
    } else if t.version == NAMESPACES {
      NamespaceAt(parts, v);
    } else if t.namespace != "" {
      NamespaceAt(parts, v + 1);
    } else if t.resource == NAMESPACES && t.name != "" {
      NamespaceAt(parts, v + 1);
    } else if t.name == NAMESPACES && t.subresource != "" {
      NamespaceAt(parts, v + 2);
    } else {
      NoNamespace(parts, 0);
    }
  }

  /** Parsing recovers exactly the unambiguous targets, in both API styles and both scopes. */
  lemma BuildThenParse(t: Target)
    requires WellFormed(t)
    ensures Recovered(t) <==> Unambiguous(t)
  {
    PartsOfBuilt(t);
    NamespaceOfBuilt(t);
  }

  /** A path that is the prefix alone is the root, and one that does not begin with the prefix and a slash is left alone. */
  lemma StripElsewhere(prefix: string, path: string)
    ensures var trimmed := TrimSuffixChar(prefix, '/');
            && (trimmed != "" && path == trimmed ==> StripAPIPathPrefix(path, prefix) == "/")
            && (trimmed == "" || (path != trimmed && !HasPrefix(path, trimmed + "/")) ==> StripAPIPathPrefix(path, prefix) == path)
  {
  }

  /** Behind a proxy prefix, with or without its trailing slash, the parsers see the same path. */
  lemma StripUndoesPrefix(prefix: string, path: string)
    requires HasPrefix(path, "/")
    ensures StripAPIPathPrefix(TrimSuffixChar(prefix, '/') + path, prefix) == path
  {
    var trimmed := TrimSuffixChar(prefix, '/');
    var full := trimmed + path;
    assert path[0..1] == "/";
    assert full[0..|trimmed| + 1] == trimmed + "/";
    assert full[|trimmed|..] == path;
  }
}
