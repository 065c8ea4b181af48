/**
 pkg/kcp/workspace.go: the depth-first discovery of nested kcp workspaces.

 `Listing` stands for building a client for a workspace and listing its children; None is a
 failure of either, which the code logs and treats as a workspace without children. Each
 path is listed at most once in a discovery, so one function covers every run.
 */
module WorkspaceDiscovery {
  import opened Common

  type Listing = string -> Option<seq<string>>

  function ChildPath(parent: string, name: string): string {
    parent + ":" + name
  }

  function Children(list: Listing, parent: string): set<string> {
    match list(parent)
    case None => {}
    case Some(names) => set name | name in names && name != "" :: ChildPath(parent, name)
  }

  ghost predicate Closed(list: Listing, paths: set<string>) {
    forall p :: p in paths ==> Children(list, p) <= paths
  }

  /** A walk down the hierarchy, one successful listing at a time. */
  ghost predicate Walk(list: Listing, trail: seq<string>) {
    forall i :: 0 < i < |trail| ==> trail[i] in Children(list, trail[i - 1])
  }

  ghost predicate Leads(list: Listing, trail: seq<string>, from: string, to: string) {
    trail != [] && trail[0] == from && trail[|trail| - 1] == to && Walk(list, trail)
  }

  ghost predicate Reachable(list: Listing, from: string, to: string) {
    exists trail :: Leads(list, trail, from, to)
  }

  lemma ReachesItself(list: Listing, p: string)
    ensures Reachable(list, p, p)
  {
    assert Leads(list, [p], p, p);
  }

  lemma StepThenReach(list: Listing, from: string, mid: string, to: string)
    requires mid in Children(list, from) && Reachable(list, mid, to)
    ensures Reachable(list, from, to)
  {
    var trail :| Leads(list, trail, mid, to);
    assert Leads(list, [from] + trail, from, to);
  }

  /** A closed set is never left. */
  lemma {:induction false} WalkStaysInside(list: Listing, trail: seq<string>, paths: set<string>, i: nat)
    requires Closed(list, paths) && Walk(list, trail)
    requires i < |trail| && trail[0] in paths
    ensures trail[i] in paths
  {
    if i > 0 {
      WalkStaysInside(list, trail, paths, i - 1);
    }
  }

  /** What is reachable from the root lies in every closed set around the root. */
  lemma ReachableIsLeast(list: Listing, root: string, to: string, paths: set<string>)
    requires Closed(list, paths) && root in paths && Reachable(list, root, to)
    ensures to in paths
  {
    var trail :| Leads(list, trail, root, to);
    WalkStaysInside(list, trail, paths, |trail| - 1);
  }

  /** The path of a workspace: the root's, and then a colon and a name for each level. */
  function PathOf(root: string, names: seq<string>): string {
    if names == [] then root else PathOf(root, names[..|names| - 1]) + ":" + names[|names| - 1]
  }

  /** Each name was listed, and not empty, in the workspace that the names before it lead to. */
  ghost predicate ListedInTurn(list: Listing, root: string, names: seq<string>) {
    names == [] ||
    (var front, name := names[..|names| - 1], names[|names| - 1];
     && ListedInTurn(list, root, front) && name != ""
     && list(PathOf(root, front)).Some? && name in list(PathOf(root, front)).value)
  }

  lemma {:induction false} ListedIsReachable(list: Listing, root: string, names: seq<string>)
    requires ListedInTurn(list, root, names)
    ensures Reachable(list, root, PathOf(root, names))
  {
    if names == [] {
      ReachesItself(list, root);
    } else {
      var front := names[..|names| - 1];
      ListedIsReachable(list, root, front);
      var trail :| Leads(list, trail, root, PathOf(root, front));
      assert Leads(list, trail + [PathOf(root, names)], root, PathOf(root, names));
    }
  }

  lemma {:induction false} TrailIsListed(list: Listing, root: string, trail: seq<string>) returns (names: seq<string>)
    requires trail != [] && trail[0] == root && Walk(list, trail)
    ensures ListedInTurn(list, root, names) && PathOf(root, names) == trail[|trail| - 1]
    decreases |trail|
  {
    if |trail| == 1 {
      names := [];
    } else {
      var n := |trail| - 1;
      var front := TrailIsListed(list, root, trail[..n]);
      assert trail[n] in Children(list, trail[n - 1]);
      var name :| name in list(trail[n - 1]).value && name != "" && ChildPath(trail[n - 1], name) == trail[n];
      names := front + [name];
      assert names[..|names| - 1] == front;
    }
  }

  /** The reachable workspaces are exactly those that listed names lead to, level by level, joined by colons. */
  lemma ReachableExactlyWhen(list: Listing, root: string, to: string)
    ensures Reachable(list, root, to) <==> exists names :: ListedInTurn(list, root, names) && PathOf(root, names) == to
  {
    if Reachable(list, root, to) {
      var trail :| Leads(list, trail, root, to);
      var names := TrailIsListed(list, root, trail);
    }
    if names :| ListedInTurn(list, root, names) && PathOf(root, names) == to {
      ListedIsReachable(list, root, names);
    }
  }

  /** The `discovered` map that the recursion shares. */
  class DiscoveredSet {
    var paths: set<string>

    constructor (root: string)
      ensures paths == {root}
    {
      paths := {root};
    }
  }

  /**
   The recursion adds only paths reachable from the parent, and leaves no gap: the parent's
   children and those of every path it added are in. `universe`, a finite closed set around
   the parent, is what makes it terminate: each call adds a path of `universe` first.
   */
  method DiscoverRecursive(list: Listing, parent: string, discovered: DiscoveredSet, ghost universe: set<string>)
    requires Closed(list, universe) && parent in universe && discovered.paths <= universe
    modifies discovered
    ensures old(discovered.paths) <= discovered.paths <= universe
    ensures forall p :: p in discovered.paths - old(discovered.paths) ==> Reachable(list, parent, p)
    ensures Children(list, parent) <= discovered.paths
    ensures forall p :: p in discovered.paths - old(discovered.paths) ==> Children(list, p) <= discovered.paths
    decreases |universe - discovered.paths|
  {
    match list(parent) {
      case None =>
      case Some(names) =>
        for i := 0 to |names|
          invariant old(discovered.paths) <= discovered.paths <= universe
          invariant forall p :: p in discovered.paths - old(discovered.paths) ==> Reachable(list, parent, p)
          invariant forall p :: p in discovered.paths - old(discovered.paths) ==> Children(list, p) <= discovered.paths
          invariant forall k :: 0 <= k < i && names[k] != "" ==> ChildPath(parent, names[k]) in discovered.paths
        {
          if names[i] == "" { continue; }
          var fullPath := ChildPath(parent, names[i]);
          if fullPath in discovered.paths { continue; }
          assert fullPath in Children(list, parent);
          ghost var before := discovered.paths;
          SmallerRemainder(universe, old(discovered.paths), before, fullPath);
          discovered.paths := discovered.paths + {fullPath};
          ReachesItself(list, fullPath);
          DiscoverRecursive(list, fullPath, discovered, universe);
          forall p | p in discovered.paths - old(discovered.paths) ensures Reachable(list, parent, p) {
            if p !in before {
              StepThenReach(list, parent, fullPath, p);
            }
          }
        }
    }
  }

  lemma SmallerRemainder(universe: set<string>, first: set<string>, now: set<string>, p: string)
    requires first <= now && p in universe && p !in now
    ensures |universe - (now + {p})| < |universe - first|
  {
    SubsetIsSmaller(universe - (now + {p}), universe - first - {p});
  }

  lemma AppendDistinct(s: seq<string>, x: string)
    requires x !in s && forall i, j :: 0 <= i < j < |s| ==> s[i] != s[j]
    ensures forall i, j :: 0 <= i < j < |s + [x]| ==> (s + [x])[i] != (s + [x])[j]
  {
  }

  /**
   The result lists, once each, exactly the workspaces reachable from the root by
   successful listings.
   */
  method DiscoverAllWorkspaces(list: Listing, root: string, ghost universe: set<string>)
    returns (workspaces: seq<string>)
    requires Closed(list, universe) && root in universe
    ensures forall p :: p in workspaces <==> Reachable(list, root, p)
    ensures forall i, j :: 0 <= i < j < |workspaces| ==> workspaces[i] != workspaces[j]
  {
    var discovered := new DiscoveredSet(root);
    ReachesItself(list, root);
    DiscoverRecursive(list, root, discovered, universe);
    var paths := discovered.paths;
    assert Closed(list, paths);
    var rest := paths;
    workspaces := [];
    while rest != {}
      invariant rest <= paths
      invariant forall p :: p in workspaces <==> p in paths - rest
      invariant forall i, j :: 0 <= i < j < |workspaces| ==> workspaces[i] != workspaces[j]
      decreases rest
    {
      var p :| p in rest;
      rest := rest - {p};
      AppendDistinct(workspaces, p);
      workspaces := workspaces + [p];
    }
    forall p | Reachable(list, root, p) ensures p in paths {
      ReachableIsLeast(list, root, p, paths);
    }
  }
}
