/** pkg/kcp/workspace.go: taking a kcp server URL apart and putting one together. */
module WorkspaceUrls {
  import opened Strings

  const CLUSTERS := "/clusters/"

  datatype ServerURL = ServerURL(base: string, workspace: string)

  function ParseServerURL(url: string): ServerURL {
    var i := Index(url, CLUSTERS);
    if i == -1 then ServerURL(url, "")
    else ServerURL(url[..i], TrimSuffixChar(url[i + |CLUSTERS|..], '/'))
  }

  function ConstructWorkspaceURL(base: string, workspace: string): string {
    base + CLUSTERS + workspace
  }

  lemma SeparatorBorder(k: nat)
    requires 0 < k < |CLUSTERS|
    requires CLUSTERS[k..] == CLUSTERS[..|CLUSTERS| - k]
    ensures k == |CLUSTERS| - 1
  {
    assert CLUSTERS[k] == CLUSTERS[k..][0] == CLUSTERS[0] == '/';
  }

  /**
   An occurrence of the separator before the one Construct wrote is either inside the base
   or is the base's own last nine characters completed by the separator's first slash.
   */
  lemma EarlierOccurrence(base: string, workspace: string, j: nat)
    requires j < |base|
    ensures OccursAt(ConstructWorkspaceURL(base, workspace), CLUSTERS, j)
       <==> OccursAt(base, CLUSTERS, j) || (j == |base| - 9 && HasSuffix(base, "/clusters"))
  {
    var url := ConstructWorkspaceURL(base, workspace);
    if j + |CLUSTERS| <= |base| {
      assert url[j..j + |CLUSTERS|] == base[j..j + |CLUSTERS|];
    } else {
      var k := |base| - j;
      if OccursAt(url, CLUSTERS, j) {
        forall i | k <= i < |CLUSTERS| ensures CLUSTERS[i] == CLUSTERS[i - k] {
          OccursChar(url, CLUSTERS, j, i);
        }
        SeparatorBorder(k);
        forall i | 0 <= i < |"/clusters"| ensures base[j + i] == "/clusters"[i] {
          OccursChar(url, CLUSTERS, j, i);
          assert CLUSTERS[..9] == "/clusters";
        }
        OccursFromChars(base, "/clusters", j);
      }
      if j == |base| - 9 && HasSuffix(base, "/clusters") {
        assert url[j..j + |CLUSTERS|] == base[j..] + CLUSTERS[..1] == CLUSTERS;
      }
    }
  }

  /** The separator is found where it was written exactly when the base hides no earlier one. */
  lemma SeparatorFound(base: string, workspace: string)
    ensures Index(ConstructWorkspaceURL(base, workspace), CLUSTERS) == |base|
       <==> !Contains(base, CLUSTERS) && !HasSuffix(base, "/clusters")
  {
    var url := ConstructWorkspaceURL(base, workspace);
    assert url[|base|..|base| + |CLUSTERS|] == CLUSTERS;
    assert OccursAt(url, CLUSTERS, |base|);
    forall j: nat | j < |base|
      ensures OccursAt(url, CLUSTERS, j)
         <==> OccursAt(base, CLUSTERS, j) || (j == |base| - 9 && HasSuffix(base, "/clusters"))
    {
      EarlierOccurrence(base, workspace, j);
    }
    if HasSuffix(base, "/clusters") {
      assert OccursAt(url, CLUSTERS, |base| - 9);
    }
  }

  /**
   Parsing undoes building for exactly these arguments: a base with no separator in it and
   none about to be completed by the join, and a workspace without a trailing slash.
   */
  lemma ConstructThenParse(base: string, workspace: string)
    ensures ParseServerURL(ConstructWorkspaceURL(base, workspace)) == ServerURL(base, workspace)
       <==> !Contains(base, CLUSTERS) && !HasSuffix(base, "/clusters") && !HasSuffix(workspace, "/")
  {
    var url := ConstructWorkspaceURL(base, workspace);
    var i := Index(url, CLUSTERS);
    SeparatorFound(base, workspace);
    assert OccursAt(url, CLUSTERS, |base|);
    assert i != -1;
    if i == |base| {
      assert url[..i] == base;
      assert url[i + |CLUSTERS|..] == workspace;
      assert HasSuffix(workspace, "/") <==> |workspace| > 0 && workspace[|workspace| - 1] == '/';
    } else {
      assert |url[..i]| != |base|;
    }
  }

  /** A URL without a separator is all base. */
  lemma ParseWithoutSeparator(url: string)
    requires !Contains(url, "/clusters/")
    ensures ParseServerURL(url) == ServerURL(url, "")
  {
  }

  /** Building undoes parsing for every URL that has a separator, up to one trailing slash. */
  lemma ParseThenConstruct(url: string)
    requires Contains(url, CLUSTERS)
    ensures var p := ParseServerURL(url);
            var back := ConstructWorkspaceURL(p.base, p.workspace);
            back == url || back + "/" == url
  {
    var i := Index(url, CLUSTERS);
    assert url == url[..i] + url[i..i + |CLUSTERS|] + url[i + |CLUSTERS|..];
    var p := ParseServerURL(url);
    var rest := url[i + |CLUSTERS|..];
    if p.workspace != rest {
      assert p.base + CLUSTERS + (p.workspace + "/") == ConstructWorkspaceURL(p.base, p.workspace) + "/";
    }
  }
}
