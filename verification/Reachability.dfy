/** Following a link of a shared tree: where the kernel ends up, and that this is
    the realpath whose ACL the compiler sets. */
module Reachability {
  import opened Strings
  import opened Paths
  import opened Sharing
  import opened Nesting
  import opened RealShares
  import opened Traversal
  import opened ShareTrees
  import opened FileSystem
  import opened Reconcile
  import opened ShareTreesApply

  // Descending by names

  lemma {:induction false} DescendAppend(d: string, a: seq<string>, b: seq<string>)
    ensures Descend(d, a + b) == Descend(Descend(d, a), b)
    decreases |b|
  {
    if b == [] {
      assert a + b == a;
    } else {
      var n := |b| - 1;
      DescendAppend(d, a, b[..n]);
      assert (a + b)[..|a + b| - 1] == a + b[..n];
    }
  }

  lemma DescendSnoc(d: string, names: seq<string>, n: string)
    ensures Descend(d, names + [n]) == Descend(d, names) + "/" + n
    ensures Descend(d, []) == d
  {
    assert (names + [n])[..|names|] == names;
  }

  lemma WalkEnd(nodes: Nodes, cur: string, links: nat)
    ensures Walk(nodes, cur, [], links) == Some(cur)
  {
  }

  lemma {:induction false} PartsOfDescend(d: string, names: seq<string>)
    requires CleanNames(names)
    ensures Parts(Descend(d, names)) == Parts(d) + names
  {
    if names != [] {
      var n := |names| - 1;
      PartsOfDescend(d, names[..n]);
      SplitJoin2(Descend(d, names[..n]), names[n], '/');
      SplitPlain(names[n], '/');
      assert Parts(d) + names[..n] + [names[n]] == Parts(d) + names;
    }
  }

  /** Resolving a path below an existing directory is walking on from there. */
  lemma ResolveBelow(nodes: Nodes, root: string, names: seq<string>)
    requires WellFormed(nodes) && IsDir(nodes, root) && CleanNames(names)
    ensures Resolve(nodes, Descend(root, names)) == Walk(nodes, root, names, MAX_LINKS)
  {
    hide Walk, Split, Descend, WellFormed;
    WellFormedParts(nodes, root);
    DescendParts(root);
    PartsOfDescend(root, names);
    assert (Parts(root) + names)[1..] == Parts(root)[1..] + names;
    WalkDown(nodes, "", Parts(root)[1..], names, MAX_LINKS);
  }

  /** A directory is above everything that exists below it. */
  lemma DescendDir(nodes: Nodes, d: string, a: seq<string>, b: seq<string>)
    requires WellFormed(nodes) && Descend(d, a + b) in nodes && b != []
    ensures IsDir(nodes, Descend(d, a))
  {
    DescendAppend(d, a, b);
    DescendBelow(Descend(d, a), b);
    AncestorsAreDirs(nodes, Descend(d, a + b), Descend(d, a));
  }

  // Links

  /** The target of `<orgdir>/<ou>/<srv>`: the top of the service if the org unit
      is the facility that operates it, else the org unit's part. */
  function ServiceLinkTarget(fs: Bcpfs, ou: string, srv: string): string
    requires srv in fs.facilityByService
  {
    var dest := Join(["../..", fs.serviceDir, srv]);
    if OwnsService(fs, ou, srv) then dest else Join([dest, ou])
  }

  predicate OwnsService(fs: Bcpfs, ou: string, srv: string)
    requires srv in fs.facilityByService
  {
    ou == fs.facilityByService[srv] + "-facility"
  }

  lemma ServiceLinkTargetParts(fs: Bcpfs, ou: string, srv: string)
    requires fs.Valid() && CleanName(ou) && CleanName(srv) && srv in fs.facilityByService
    ensures Parts(ServiceLinkTarget(fs, ou, srv)) ==
            Ups(2) + [fs.serviceDir, srv] + if OwnsService(fs, ou, srv) then [] else [ou]
    ensures ServiceLinkTarget(fs, ou, srv) != "" && ServiceLinkTarget(fs, ou, srv)[0] != '/'
  {
    hide Join, Split;
    TopTarget(fs.serviceDir, srv);
    if !OwnsService(fs, ou, srv) { OuTarget(fs.serviceDir, srv, ou); }
  }

  /** Where the share link for `p` leads, as components below the root dir. */
  function Landing(fs: Bcpfs, p: string): seq<string> {
    var parts := Parts(p);
    if !fs.IsServicePath(p) then [fs.orgUnitDir] + parts
    else [fs.serviceDir, parts[1]] + (if OwnsService(fs, parts[0], parts[1]) then [] else [parts[0]]) + parts[2..]
  }

  /** The links on the way are on disk: the share link for `p` in the tree of `g`
      and, for a service path, the service link of its org unit. */
  ghost predicate LinksInPlace(fs: Bcpfs, nodes: Nodes, g: string, p: string) {
    var share := Descend(fs.rootdir, [fs.orgUnitDir, g, "shared"] + Parts(p));
    && share in nodes && nodes[share] == Link(LinkTarget(p))
    && (fs.IsServicePath(p) ==>
          var link := Descend(fs.rootdir, [fs.orgUnitDir, Parts(p)[0], Parts(p)[1]]);
          link in nodes && nodes[link] == Link(ServiceLinkTarget(fs, Parts(p)[0], Parts(p)[1])))
  }

  /** The `..` of a share link climb from wherever the link is to `<orgdir>`. */
  lemma ShareLinkClimbs(fs: Bcpfs, nodes: Nodes, g: string, p: string)
    requires fs.Valid() && WellFormed(nodes) && CleanName(g) && RelPath(p) && LinksInPlace(fs, nodes, g, p)
    ensures Resolve(nodes, Descend(fs.rootdir, [fs.orgUnitDir, g, "shared"] + Parts(p))) ==
            Walk(nodes, Descend(fs.rootdir, [fs.orgUnitDir]), Parts(p), MAX_LINKS - 1)
  {
    hide Walk, Resolve, Split, Descend, WellFormed, LinkTarget;
    var root, org, parts := fs.rootdir, Descend(fs.rootdir, [fs.orgUnitDir]), Parts(p);
    var n := |parts| - 1;
    var up := [g, "shared"] + parts[..n];
    var dirs := [fs.orgUnitDir] + up;
    var all := [fs.orgUnitDir, g, "shared"] + parts;
    assert all == dirs + [parts[n]];
    DescendDir(nodes, root, dirs, [parts[n]]);
    assert [] + all == all;
    DescendDir(nodes, root, [], all);
    DescendSnoc(root, dirs, parts[n]);
    CleanNamesAppend([g, "shared"], parts[..n]);
    CleanNamesAppend([fs.orgUnitDir], up);
    CleanNamesAppend(dirs, [parts[n]]);
    ResolveBelow(nodes, root, all);
    WalkDown(nodes, root, dirs, [parts[n]], MAX_LINKS);
    LinkTargetParts(p);
    TargetNotAbsolute(LinkTarget(p), n + 2, parts);
    assert [parts[n]] + [] == [parts[n]];
    WalkLink(nodes, Descend(root, dirs), parts[n], [], MAX_LINKS);
    assert Parts(LinkTarget(p)) + [] == Ups(n + 2) + parts;
    DescendAppend(root, [fs.orgUnitDir], up);
    WalkUp(nodes, org, up, parts, MAX_LINKS - 1);
  }

  /** The service link leads from the org unit into the service tree. */
  lemma ServiceLinkLeads(fs: Bcpfs, nodes: Nodes, g: string, p: string)
    requires fs.Valid() && WellFormed(nodes) && RelPath(p) && LinksInPlace(fs, nodes, g, p) && fs.IsServicePath(p)
    ensures Walk(nodes, Descend(fs.rootdir, [fs.orgUnitDir]), Parts(p), MAX_LINKS - 1) ==
            Walk(nodes, fs.rootdir, Landing(fs, p), MAX_LINKS - 2)
  {
    hide Walk, Split, Descend, WellFormed, ServiceLinkTarget;
    var root, org, parts := fs.rootdir, Descend(fs.rootdir, [fs.orgUnitDir]), Parts(p);
    var ou, srv, rest := parts[0], parts[1], parts[2..];
    var ouDir := [fs.orgUnitDir, ou];
    assert [fs.orgUnitDir, ou, srv] == ouDir + [srv];
    DescendDir(nodes, root, ouDir, [srv]);
    DescendSnoc(root, ouDir, srv);
    assert ouDir == [fs.orgUnitDir] + [ou];
    DescendAppend(root, [fs.orgUnitDir], [ou]);
    assert parts == [ou] + ([srv] + rest);
    WalkDown(nodes, org, [ou], [srv] + rest, MAX_LINKS - 1);
    ServiceLinkTargetParts(fs, ou, srv);
    WalkLink(nodes, Descend(root, ouDir), srv, rest, MAX_LINKS - 1);
    assert Parts(ServiceLinkTarget(fs, ou, srv)) + rest == Ups(2) + Landing(fs, p);
    WalkUp(nodes, root, ouDir, Landing(fs, p), MAX_LINKS - 2);
  }

  /** Following the share link for `p` in the tree of `g` ends at the landing. */
  lemma ShareLinkResolves(fs: Bcpfs, nodes: Nodes, g: string, p: string)
    requires fs.Valid() && WellFormed(nodes) && CleanName(g) && RelPath(p) && LinksInPlace(fs, nodes, g, p)
    requires Descend(fs.rootdir, Landing(fs, p)) in nodes && !nodes[Descend(fs.rootdir, Landing(fs, p))].Link?
    ensures Resolve(nodes, Abs(fs, SharedPath(fs, g, p))) == Some(Descend(fs.rootdir, Landing(fs, p)))
  {
    hide Walk, Resolve, Split, Descend, WellFormed, ServiceLinkTarget, LinkTarget;
    var root, parts := fs.rootdir, Parts(p);
    SharedDescend(fs, g, p);
    ShareLinkClimbs(fs, nodes, g, p);
    if fs.IsServicePath(p) {
      ServiceLinkLeads(fs, nodes, g, p);
      WalkDown(nodes, root, Landing(fs, p), [], MAX_LINKS - 2);
      WalkEnd(nodes, Descend(root, Landing(fs, p)), MAX_LINKS - 2);
      assert Landing(fs, p) + [] == Landing(fs, p);
    } else {
      DescendAppend(root, [fs.orgUnitDir], parts);
      WalkDown(nodes, Descend(root, [fs.orgUnitDir]), parts, [], MAX_LINKS - 1);
      WalkEnd(nodes, Descend(root, Landing(fs, p)), MAX_LINKS - 1);
      assert parts + [] == parts;
    }
  }

  lemma SharedDescend(fs: Bcpfs, g: string, p: string)
    requires fs.Valid() && CleanName(g) && RelPath(p)
    ensures Abs(fs, SharedPath(fs, g, p)) == Descend(fs.rootdir, [fs.orgUnitDir, g, "shared"] + Parts(p))
  {
    var names := [fs.orgUnitDir, g, "shared"] + Parts(p);
    DescendConcat(fs.rootdir, names);
    SharedPathParts(fs, g, p);
    ConcatSplit(SharedPath(fs, g, p), '/');
  }

  lemma RealpathDescend(fs: Bcpfs, p: string)
    requires fs.Valid() && RelPath(p)
    ensures Abs(fs, fs.Realpath(p)) == Descend(fs.rootdir, fs.RealParts(p))
  {
    RealpathParts(fs, p);
    ConcatSplit(fs.Realpath(p), '/');
    DescendConcat(fs.rootdir, fs.RealParts(p));
  }

  /** The share link leads to the realpath exactly if the logical path is not
      written through a facility that does not operate the service. */
  lemma LandingIsRealpath(fs: Bcpfs, p: string)
    requires fs.Valid() && RelPath(p)
    ensures Landing(fs, p) == fs.RealParts(p) <==>
            (fs.IsServicePath(p) && fs.IsFacilityPath(p) ==> OwnsService(fs, Parts(p)[0], Parts(p)[1]))
  {
    var parts := Parts(p);
    if fs.IsServicePath(p) {
      assert [fs.serviceDir] + parts[1..] == [fs.serviceDir, parts[1]] + parts[2..];
      assert [fs.serviceDir, parts[1]] + [parts[0]] + parts[2..] == [fs.serviceDir, parts[1], parts[0]] + parts[2..];
      assert [fs.serviceDir, parts[1]] + [] + parts[2..] == [fs.serviceDir, parts[1]] + parts[2..];
      if !OwnsService(fs, parts[0], parts[1]) && fs.IsFacilityPath(p) {
        assert |Landing(fs, p)| == |fs.RealParts(p)| + 1;
      }
    }
  }

  /** Through a facility that does not operate the service, the link ends in the part of
      that facility. */
  lemma WrongFacility(fs: Bcpfs, dir: string, srv: string, ou: string)
    requires CleanName(dir) && CleanName(srv) && CleanName(ou) && dir in fs.facilityDirs
    requires srv in fs.facilityByService && !OwnsService(fs, dir, srv)
    ensures var p := dir + "/" + srv + "/" + ou;
            && RelPath(p) && fs.ManagingGroupsOfPath(p).Ok?
            && Landing(fs, p) == [fs.serviceDir, srv, dir, ou] && fs.RealParts(p) == [fs.serviceDir, srv, ou]
  {
    hide Split;
    ThreeParts(dir, srv, ou);
    var parts := [dir, srv, ou];
    assert parts[2..] == [ou] && parts[1..] == [srv, ou];
  }

  /** For example, `em` is a facility, but `tem` belongs to `ag`. */
  lemma WrongFacilityExample(fs: Bcpfs)
    requires "em-facility" in fs.facilityDirs
    requires "tem" in fs.facilityByService && fs.facilityByService["tem"] == "ag"
    ensures var p := "em-facility/tem/lab";
            && RelPath(p) && fs.ManagingGroupsOfPath(p).Ok?
            && Landing(fs, p) == [fs.serviceDir, "tem", "em-facility", "lab"]
            && fs.RealParts(p) == [fs.serviceDir, "tem", "lab"]
  {
    hide Split, RelPath, Bcpfs.ManagingGroupsOfPath, Bcpfs.RealParts, Landing;
    NotOwner();
    WrongFacility(fs, "em-facility", "tem", "lab");
    assert "em-facility" + "/" + "tem" + "/" + "lab" == "em-facility/tem/lab";
  }

  lemma NotOwner()
    ensures "em-facility" != "ag" + "-facility"
  {
    assert "em-facility"[0] != ("ag" + "-facility")[0];
  }

  // End to end

  /** Everything the compiler produced, from the exports to the trees. */
  ghost predicate Compiled(
    fs: Bcpfs, exps: Exports, imps: ImportFilter, reals: Exports, travs: Exports, trees: seq<ShareTree>)
  {
    var shares := Selected(exps, imps);
    && IsRealShares(fs, shares, reals)
    && IsTraversal(fs, shares, reals, travs)
    && IsShareTrees(fs, shares, trees)
  }

  /** The files of the trees are on disk, and so is every service link of an org
      unit that shares a service path. */
  ghost predicate Deployed(fs: Bcpfs, nodes: Nodes, trees: seq<ShareTree>, p: string) {
    && WellFormed(nodes)
    && (forall t, f :: t in trees && f in t.files ==>
          Abs(fs, f.path) in nodes && nodes[Abs(fs, f.path)] == NodeFor(f.target))
    && (fs.IsServicePath(p) ==>
          var link := Descend(fs.rootdir, [fs.orgUnitDir, Parts(p)[0], Parts(p)[1]]);
          link in nodes && nodes[link] == Link(ServiceLinkTarget(fs, Parts(p)[0], Parts(p)[1])))
  }

  /** An imported export entry works: the grantee finds a link for the path in its
      own tree, the link resolves to the realpath, the realpath's ACL gives at
      least the granted mode, and the grantee may traverse the org unit directory
      and every directory above the realpath below the service and org tops. */
  lemma ImportedShareIsReachable(
    fs: Bcpfs, exps: Exports, imps: ImportFilter, reals: Exports, travs: Exports, trees: seq<ShareTree>,
    nodes: Nodes, e: ExportEntry, ace: Ace)
    requires fs.Valid() && Compiled(fs, exps, imps, reals, travs, trees)
    requires e in exps && ace in e.acl && FirstMatchAccepts(imps, e.path, ace)
    requires RelPath(e.path) && CleanName(ace.group)
    requires Deployed(fs, nodes, trees, e.path)
    requires fs.IsServicePath(e.path) && fs.IsFacilityPath(e.path) ==>
               OwnsService(fs, Parts(e.path)[0], Parts(e.path)[1])
    requires IsDir(nodes, Abs(fs, fs.Realpath(e.path)))
    ensures exists t :: t in trees && t.orgUnit == ace.group
              && ShareFile(SharedPath(fs, ace.group, e.path), LinkTarget(e.path)) in t.files
    ensures Resolve(nodes, Abs(fs, SharedPath(fs, ace.group, e.path))) == Some(Abs(fs, fs.Realpath(e.path)))
    ensures exists r :: r in reals && r.path == fs.Realpath(e.path)
              && forall b :: ace.mode.Has(b) ==> Allows(r.acl, ace.group, b)
    ensures HasEntry(travs, OuDir(fs, e.path), ace.group)
    ensures forall q :: OnTheWay(fs, fs.Realpath(e.path), q) ==> HasEntry(travs, q, ace.group)
  {
    hide Selected, Deployed, IsRealShares, IsTraversal, IsShareTrees, Landing, Resolve, OnTheWay, HasEntry, Allows;
    var shares := Selected(exps, imps);
    var s := e.(acl := AcceptedAcl(e.acl, e.path, imps));
    ImportedIsShared(exps, imps, e, ace);
    LinkInTree(fs, shares, trees, s, ace.group);
    TreeLinkResolves(fs, nodes, trees, ace.group, e.path);
    AclGivesMode(fs, exps, imps, reals, e, ace, s);
    TraversalOpen(fs, shares, reals, travs, s, ace.group);
  }

  lemma LinkInTree(fs: Bcpfs, shares: Exports, trees: seq<ShareTree>, s: ExportEntry, g: string)
    requires IsShareTrees(fs, shares, trees) && s in shares && g in Grantees(s.acl)
    ensures exists t :: t in trees && t.orgUnit == g && ShareFile(SharedPath(fs, g, s.path), LinkTarget(s.path)) in t.files
  {
    assert SharedWith(shares, g, s.path);
    assert g in OrgUnits(trees);
    var i :| 0 <= i < |OrgUnits(trees)| && OrgUnits(trees)[i] == g;
    var t, f := trees[i], ShareFile(SharedPath(fs, g, s.path), LinkTarget(s.path));
    assert t in trees && IsShareTree(fs, shares, t) && FileOfShare(fs, g, s.path, f);
    assert f in t.files;
  }

  lemma TreeLinkResolves(fs: Bcpfs, nodes: Nodes, trees: seq<ShareTree>, g: string, p: string)
    requires fs.Valid() && RelPath(p) && CleanName(g) && Deployed(fs, nodes, trees, p)
    requires exists t :: t in trees && t.orgUnit == g && ShareFile(SharedPath(fs, g, p), LinkTarget(p)) in t.files
    requires fs.IsServicePath(p) && fs.IsFacilityPath(p) ==> OwnsService(fs, Parts(p)[0], Parts(p)[1])
    requires IsDir(nodes, Abs(fs, fs.Realpath(p)))
    ensures Resolve(nodes, Abs(fs, SharedPath(fs, g, p))) == Some(Abs(fs, fs.Realpath(p)))
  {
    hide Resolve, Split, LinkTarget, WellFormed;
    LinkTargetParts(p);
    SharedDescend(fs, g, p);
    LandingIsRealpath(fs, p);
    RealpathDescend(fs, p);
    ShareLinkResolves(fs, nodes, g, p);
  }

  lemma AclGivesMode(
    fs: Bcpfs, exps: Exports, imps: ImportFilter, reals: Exports, e: ExportEntry, ace: Ace, s: ExportEntry)
    requires IsRealShares(fs, Selected(exps, imps), reals)
    requires e in exps && ace in e.acl && FirstMatchAccepts(imps, e.path, ace)
    requires s in Selected(exps, imps) && s.path == e.path
    ensures exists r :: r in reals && r.path == fs.Realpath(e.path)
              && forall b :: ace.mode.Has(b) ==> Allows(r.acl, ace.group, b)
  {
    RealShareOf(fs, Selected(exps, imps), reals, s);
    var r :| r in reals && r.path == fs.Realpath(e.path);
    forall b | ace.mode.Has(b) ensures Allows(r.acl, ace.group, b) {
      assert ImportedExportAllows(fs, exps, imps, r.path, ace.group, b);
      CompilationMeaning(fs, exps, imps, reals, r, ace.group, b);
    }
  }

  lemma TraversalOpen(fs: Bcpfs, shares: Exports, reals: Exports, travs: Exports, s: ExportEntry, g: string)
    requires IsRealShares(fs, shares, reals) && IsTraversal(fs, shares, reals, travs)
    requires s in shares && g in Grantees(s.acl)
    ensures HasEntry(travs, OuDir(fs, s.path), g)
    ensures forall q :: OnTheWay(fs, fs.Realpath(s.path), q) ==> HasEntry(travs, q, g)
  {
    assert ShareWants(fs, shares, OuDir(fs, s.path), g);
    RealShareOf(fs, shares, reals, s);
    var r :| r in reals && r.path == fs.Realpath(s.path);
    assert Merged(fs, shares, r) && ShareGrants(fs, shares, r.path, g);
    forall q | OnTheWay(fs, fs.Realpath(s.path), q) ensures HasEntry(travs, q, g) {
      assert RealWants(fs, reals, q, g);
    }
  }

  lemma RealShareOf(fs: Bcpfs, shares: Exports, reals: Exports, s: ExportEntry)
    requires IsRealShares(fs, shares, reals) && s in shares
    ensures exists r :: r in reals && r.path == fs.Realpath(s.path)
  {
    var i :| 0 <= i < |shares| && shares[i] == s;
    assert Realpaths(fs, shares)[i] == fs.Realpath(s.path);
    assert fs.Realpath(s.path) in Elements(PathsOf(reals));
    var j :| 0 <= j < |reals| && PathsOf(reals)[j] == fs.Realpath(s.path);
    assert reals[j] in reals;
  }
}
