/** The two programs together: an apply run makes the service links, the sharing pass
    sets the ACLs and makes the trees, and every imported share then leads to its realpath
    and may be used there. */
module Deployment {
  import opened Strings
  import opened Paths
  import opened Sharing
  import opened Nesting
  import opened RealShares
  import opened Traversal
  import opened ShareTrees
  import opened FileSystem
  import opened Reconcile
  import opened ShareTreesApply
  import opened Reachability
  import opened AclStore
  import opened RealSharesExact
  import opened TraversalApply
  import opened SharingFixpoint
  import opened Compiler
  import opened Organization
  import opened FsApply
  import opened ApplySteps
  import opened ApplySymlinks
  import opened ApplyLinks

  /** The compiler's view of the configuration and of one service and org unit. */
  ghost predicate Agree(fs: Bcpfs, cfg: Config, ou: OrgUnit, s: Service) {
    && fs.rootdir == cfg.rootdir && fs.serviceDir == cfg.serviceDir && fs.orgUnitDir == cfg.orgUnitDir
    && s.name in fs.facilityByService
    && (ou.isFacility && s.facility == ou.facility <==> OwnsService(fs, ou.name, s.name))
  }

  function ServiceLinkPath(cfg: Config, ou: OrgUnit, s: Service): string {
    cfg.OrgUnitRoot() + "/" + ou.name + "/" + s.name
  }

  /** An apply run without error leaves the link of every service that is kept, with the
      target that the sharing links rely on. */
  lemma AppliedLink(
    t: Tree, cfg: Config, services: seq<Service>, ous: seq<OrgUnit>, filter: Filter, ds: seq<string>, base: Nodes, fs: Bcpfs,
    i: nat, j: nat)
    requires LinkRun(t, cfg, services, ous, filter, ds, base)
    requires i < |services| && j < |ous| && filter(services[i], ous[j]) && Agree(fs, cfg, ous[j], services[i])
    requires |ds| == |ous| && Kept(cfg, services, ous, filter, ds, j, i)
    ensures var r, p := Applied(t, cfg, services, ous, filter).nodes, ds[j] + "/" + services[i].name;
            && WellFormed(r) && p in r && r[p] == Link(ServiceLinkTarget(fs, ous[j].name, services[i].name))
            && (IsDir(r, cfg.OrgUnitRoot() + "/" + ous[j].name) ==> p == ServiceLinkPath(cfg, ous[j], services[i]))
  {
    hide Applied, AfterLinks, AfterOuDirs, WellFormed, Join, Locate, Resolve, Kept, OwnersLinked, Reaches, KeepsBut, NewIn, NotReplaced, LinkDest;
    AppliedLinkIff(t, cfg, services, ous, filter, ds, base, j, i);
    RunLinks(t, cfg, services, ous, filter, ds, base);
    var r, dir := Applied(t, cfg, services, ous, filter).nodes, cfg.OrgUnitRoot() + "/" + ous[j].name;
    SameTarget(fs, cfg, ous[j], services[i]);
    FinalWalk(t, cfg, services, ous, filter, ds, base, j);
    if IsDir(r, dir) { ResolveDir(r, dir); }
  }

  /** The two programs compute the same target. */
  lemma SameTarget(fs: Bcpfs, cfg: Config, ou: OrgUnit, s: Service)
    requires Agree(fs, cfg, ou, s)
    ensures LinkDest(cfg.serviceDir, ou, s) == ServiceLinkTarget(fs, ou.name, s.name)
  {
    hide Join, OwnsService;
  }

  lemma NotInShareTree(fs: Bcpfs, cfg: Config, ou: OrgUnit, s: Service, tree: ShareTree)
    requires fs.Valid() && Agree(fs, cfg, ou, s) && CleanName(ou.name) && CleanName(s.name) && CleanName(tree.orgUnit)
    ensures !Below(ServiceLinkPath(cfg, ou, s), DiskRoot(fs, tree))
  {
    hide Split;
    var p, root := ServiceLinkPath(cfg, ou, s), DiskRoot(fs, tree);
    TreeRootParts(fs, tree.orgUnit);
    SplitJoin2(fs.rootdir, TreeRoot(fs, tree.orgUnit), '/');
    SplitJoin2(cfg.OrgUnitRoot() + "/" + ou.name, s.name, '/');
    SplitJoin2(cfg.OrgUnitRoot(), ou.name, '/');
    SplitJoin2(cfg.rootdir, cfg.orgUnitDir, '/');
    SplitPlain(s.name, '/');
    SplitPlain(ou.name, '/');
    SplitPlain(cfg.orgUnitDir, '/');
    assert fs.rootdir + ['/'] + TreeRoot(fs, tree.orgUnit) == root;
    BelowIffParts(p, root);
  }

  /** The directories that hold the share trees exist. */
  ghost predicate RootsThere(nodes: Nodes, fs: Bcpfs, trees: seq<ShareTree>) {
    forall k :: 0 <= k < |trees| ==> IsDir(nodes, DiskRoot(fs, trees[k]))
  }

  lemma {:induction false} TargetsWellFormed(nodes: Nodes, fs: Bcpfs, trees: seq<ShareTree>)
    requires TreesFit(fs, trees) && WellFormed(nodes) && RootsThere(nodes, fs, trees)
    ensures WellFormed(AllTargets(nodes, fs, trees))
  {
    hide Layout, DiskRoot, TreeEntries, WellFormed, Target;
    if trees != [] {
      var n := |trees| - 1;
      assert trees[..n] + [trees[n]] == trees;
      LastTreeFits(fs, trees);
      TargetsWellFormed(nodes, fs, trees[..n]);
      RootKept(nodes, fs, trees, n);
      PlanSucceeds(AllTargets(nodes, fs, trees[..n]), DiskRoot(fs, trees[n]), TreeEntries(fs, trees[n].files));
    }
  }

  /** Bringing the share trees in place leaves the service link alone. */
  lemma TreesDeployed(fs: Bcpfs, cfg: Config, ou: OrgUnit, s: Service, nodes: Nodes, trees: seq<ShareTree>, p: string)
    requires TreesFit(fs, trees) && WellFormed(nodes) && RootsThere(nodes, fs, trees) && fs.IsServicePath(p)
    requires Agree(fs, cfg, ou, s) && CleanName(ou.name) && CleanName(s.name) && Parts(p)[0] == ou.name && Parts(p)[1] == s.name
    requires var link := ServiceLinkPath(cfg, ou, s);
             link in nodes && nodes[link] == Link(ServiceLinkTarget(fs, ou.name, s.name))
    ensures Deployed(fs, AllTargets(nodes, fs, trees), trees, p)
  {
    hide WellFormed, AllTargets, Layout, OwnsService, Join;
    TargetsWellFormed(nodes, fs, trees);
    FilesDeployed(fs, nodes, trees);
    var link := ServiceLinkPath(cfg, ou, s);
    forall k | 0 <= k < |trees| ensures !Below(link, DiskRoot(fs, trees[k])) {
      NotInShareTree(fs, cfg, ou, s, trees[k]);
    }
    AllTargetsOutside(nodes, fs, trees, link);
    ThreeDown(fs.rootdir, fs.orgUnitDir, ou.name, s.name);
  }

  lemma TreesAloneDeployed(fs: Bcpfs, nodes: Nodes, trees: seq<ShareTree>, p: string)
    requires TreesFit(fs, trees) && WellFormed(nodes) && RootsThere(nodes, fs, trees) && !fs.IsServicePath(p)
    ensures Deployed(fs, AllTargets(nodes, fs, trees), trees, p)
  {
    hide WellFormed, AllTargets, Layout;
    TargetsWellFormed(nodes, fs, trees);
    FilesDeployed(fs, nodes, trees);
  }

  lemma FilesDeployed(fs: Bcpfs, nodes: Nodes, trees: seq<ShareTree>)
    requires TreesFit(fs, trees)
    ensures var disk := AllTargets(nodes, fs, trees);
            forall t, f :: t in trees && f in t.files ==> Abs(fs, f.path) in disk && disk[Abs(fs, f.path)] == NodeFor(f.target)
  {
    hide AllTargets, TreesFit;
    var disk := AllTargets(nodes, fs, trees);
    forall t, f | t in trees && f in t.files ensures Abs(fs, f.path) in disk && disk[Abs(fs, f.path)] == NodeFor(f.target) {
      var k :| 0 <= k < |trees| && trees[k] == t;
      var m :| 0 <= m < |t.files| && t.files[m] == f;
      AllTreesInPlace(nodes, fs, trees, k, m);
    }
  }

  lemma ThreeDown(d: string, a: string, b: string, c: string)
    ensures Descend(d, [a, b, c]) == d + "/" + a + "/" + b + "/" + c
  {
    DescendSnoc(d, [a, b], c);
    DescendSnoc(d, [a], b);
    DescendSnoc(d, [], a);
    assert [a, b] + [c] == [a, b, c] && [a] + [b] == [a, b] && [] + [a] == [a];
  }

  // Paths of the two programs

  lemma DiskRootDescend(fs: Bcpfs, tree: ShareTree)
    requires fs.Valid() && CleanName(tree.orgUnit)
    ensures DiskRoot(fs, tree) == fs.rootdir + "/" + fs.orgUnitDir + "/" + tree.orgUnit + "/shared"
  {
    var names := [fs.orgUnitDir, tree.orgUnit, "shared"];
    TreeRootParts(fs, tree.orgUnit);
    DescendConcat(fs.rootdir, names);
    ThreeDown(fs.rootdir, fs.orgUnitDir, tree.orgUnit, "shared");
  }

  /** An org unit with a share tree has a directory of its own. */
  lemma OuDirReal(nodes: Nodes, fs: Bcpfs, trees: seq<ShareTree>, k: nat)
    requires TreesFit(fs, trees) && WellFormed(nodes) && RootsThere(nodes, fs, trees) && k < |trees|
    ensures IsDir(nodes, fs.rootdir + "/" + fs.orgUnitDir + "/" + trees[k].orgUnit)
  {
    hide WellFormed, Layout, DiskRoot;
    DiskRootDescend(fs, trees[k]);
    var dir := fs.rootdir + "/" + fs.orgUnitDir + "/" + trees[k].orgUnit;
    assert IsDir(nodes, DiskRoot(fs, trees[k]));
    assert DiskRoot(fs, trees[k]) == dir + "/" + "shared";
    AncestorsAreDirs(nodes, DiskRoot(fs, trees[k]), dir);
  }

  lemma OuDirAbs(fs: Bcpfs, p: string)
    requires fs.Valid() && RelPath(p)
    ensures Abs(fs, OuDir(fs, p)) == fs.rootdir + "/" + fs.orgUnitDir + "/" + FirstPart(p)
  {
    hide Join, Split, Concat;
    OuDirParts(fs, p);
    var names := [fs.orgUnitDir, FirstPart(p)];
    ConcatSplit(OuDir(fs, p), '/');
    DescendConcat(fs.rootdir, names);
    assert names == [fs.orgUnitDir] + [FirstPart(p)] && [fs.orgUnitDir] == [] + [fs.orgUnitDir];
    DescendSnoc(fs.rootdir, [fs.orgUnitDir], FirstPart(p));
    DescendSnoc(fs.rootdir, [], fs.orgUnitDir);
  }

  lemma AbsAbove(fs: Bcpfs, p: string, q: string)
    requires Below(p, q)
    ensures Below(Abs(fs, p), Abs(fs, q))
  {
    assert p == q + "/" + p[|q| + 1..];
    assert fs.rootdir + "/" + p == fs.rootdir + "/" + q + "/" + p[|q| + 1..];
  }

  /** The realpath lies in no share tree. */
  ghost predicate OutsideTrees(fs: Bcpfs, trees: seq<ShareTree>, p: string) {
    forall k :: 0 <= k < |trees| ==> !Below(Abs(fs, fs.Realpath(p)), DiskRoot(fs, trees[k]))
  }

  /** That of a service path never does. */
  lemma ServiceOutsideTrees(fs: Bcpfs, trees: seq<ShareTree>, p: string)
    requires TreesFit(fs, trees) && RelPath(p) && fs.IsServicePath(p)
    ensures OutsideTrees(fs, trees, p)
  {
    hide Split, Layout;
    var rp := Abs(fs, fs.Realpath(p));
    RealpathParts(fs, p);
    SplitJoin2(fs.rootdir, fs.Realpath(p), '/');
    assert fs.rootdir + ['/'] + fs.Realpath(p) == rp;
    forall k | 0 <= k < |trees| ensures !Below(rp, DiskRoot(fs, trees[k])) {
      var root := DiskRoot(fs, trees[k]);
      TreeRootParts(fs, trees[k].orgUnit);
      SplitJoin2(fs.rootdir, TreeRoot(fs, trees[k].orgUnit), '/');
      assert fs.rootdir + ['/'] + TreeRoot(fs, trees[k].orgUnit) == root;
      assert Parts(root)[|Parts(fs.rootdir)|] == fs.orgUnitDir && Parts(rp)[|Parts(fs.rootdir)|] == fs.serviceDir;
      BelowIffParts(rp, root);
    }
  }

  lemma RealpathStays(fs: Bcpfs, nodes: Nodes, trees: seq<ShareTree>, p: string)
    requires TreesFit(fs, trees) && OutsideTrees(fs, trees, p) && IsDir(nodes, Abs(fs, fs.Realpath(p)))
    ensures IsDir(AllTargets(nodes, fs, trees), Abs(fs, fs.Realpath(p)))
  {
    hide AllTargets, TreesFit, Bcpfs.Realpath;
    AllTargetsOutside(nodes, fs, trees, Abs(fs, fs.Realpath(p)));
  }

  // The whole system

  /** Every directory has an ACL. */
  ghost predicate DirsHaveAcls(fs: Bcpfs, nodes: Nodes, acls: Acls) {
    forall p :: IsDir(nodes, Abs(fs, p)) ==> IsDirAcl(acls, p)
  }

  /** The compilation of these exports succeeded with these artefacts. */
  ghost predicate CompiledFrom(
    fs: Bcpfs, pol: NamingPolicy, exps: Exports, imps: ImportFilter, reals: Exports, travs: Exports, trees: seq<ShareTree>)
  {
    && fs.Valid() && ShareNamesClean(exps) && ExportsOk(fs, exps, pol)
    && Compiled(fs, exps, imps, reals, travs, trees)
  }

  lemma CompiledFits(
    fs: Bcpfs, pol: NamingPolicy, exps: Exports, imps: ImportFilter, reals: Exports, travs: Exports, trees: seq<ShareTree>)
    requires CompiledFrom(fs, pol, exps, imps, reals, travs, trees)
    ensures TreesFit(fs, trees) && RealsApart(reals)
    ensures ShareNamesClean(Selected(exps, imps)) && Antichain(Elements(PathsOf(Selected(exps, imps))))
  {
    hide IsRealShares, IsTraversal, IsShareTrees, Antichain, Realpaths, TreesFit, RealsApart, ShareNamesClean, Selected, NoDuplicates;
    SelectedClean(fs, exps, imps);
    CompiledTreesFit(fs, Selected(exps, imps), trees);
    RealsLieApart(fs, exps, imps, reals);
  }

  /** A directory that a grantee may traverse in effect, if its mask lets it. */
  ghost predicate MayTraverse(before: Acls, after: Acls, q: string, G: string) {
    && IsDirAcl(before, q) && IsDirAcl(after, q) && HasTraverse(after[q], G)
    && (TraverseOnly.Within(Effective(after[q].access, G)) <==> TraverseOnly.Within(MaskAfter(before[q].access)))
  }

  /** The mode that a pass leaves on a share: the one listed last or, where the org unit is
      shared as a whole, `--x`. */
  ghost function ModeOnDisk(travs: Exports, r: ExportEntry, g: string): Mode
    requires g in Grantees(r.acl)
  {
    if HasEntry(travs, r.path, g) then TraverseOnly else LastMode(r.acl, g)
  }

  /** What the ACLs on disk give a grantee of the share `p` at its realpath, in effect as far
      as the mask lets it, and on the way to it. */
  ghost predicate OpenTo(fs: Bcpfs, travs: Exports, before: Acls, after: Acls, r: ExportEntry, p: string, ace: Ace) {
    GrantedTo(fs, travs, before, after, r, p, ace) && WayOpenTo(fs, before, after, r, p, ace)
  }

  ghost predicate GrantedTo(fs: Bcpfs, travs: Exports, before: Acls, after: Acls, r: ExportEntry, p: string, ace: Ace) {
    var G := fs.FsGroupOrgUnit(ace.group);
    && IsDirAcl(before, r.path) && IsDirAcl(after, r.path) && G in after[r.path].access.named && ace.group in Grantees(r.acl)
    && after[r.path].access.named[G] == ModeOnDisk(travs, r, ace.group)
    && (|Parts(p)| >= 2 ==> after[r.path].access.named[G] == LastMode(r.acl, ace.group))
    && (|Parts(p)| >= 2 && ListsOnce(r.acl, ace.group) ==> ace.mode.Within(after[r.path].access.named[G]))
    && (ace.mode.Within(Effective(after[r.path].access, G)) <==>
        ace.mode.Within(ModeOnDisk(travs, r, ace.group)) && ace.mode.Within(MaskAfter(before[r.path].access)))
  }

  ghost predicate WayOpenTo(fs: Bcpfs, before: Acls, after: Acls, r: ExportEntry, p: string, ace: Ace) {
    && MayTraverse(before, after, OuDir(fs, p), fs.FsGroupOrgUnit(ace.group))
    && (forall q :: OnTheWay(fs, r.path, q) ==> MayTraverse(before, after, q, fs.FsGroupOrgUnit(ace.group)))
  }

  /** An ACL that lists a group once gives it all that it allows. */
  lemma OnceGives(acl: Acl, g: string, m: Mode)
    requires ListsOnce(acl, g) && g in Grantees(acl) && forall b :: m.Has(b) ==> Allows(acl, g, b)
    ensures m.Within(LastMode(acl, g))
  {
    OnceMeans(acl, g);
    assert (m.Has(R) ==> LastMode(acl, g).Has(R)) && (m.Has(W) ==> LastMode(acl, g).Has(W)) && (m.Has(X) ==> LastMode(acl, g).Has(X));
  }

  lemma CompiledLists(
    fs: Bcpfs, pol: NamingPolicy, exps: Exports, imps: ImportFilter, reals: Exports, travs: Exports, trees: seq<ShareTree>)
    requires CompiledFrom(fs, pol, exps, imps, reals, travs, trees)
    ensures Lists3(fs, Selected(exps, imps), reals, travs)
  {
    hide IsRealShares, IsTraversal, IsShareTrees, Antichain, Realpaths, TreesFit, RealsApart, Selected, NoDuplicates;
    CompiledFits(fs, pol, exps, imps, reals, travs, trees);
  }

  /** Traversal entries are on disk, in effect as far as the mask lets them. */
  lemma TraversalEffect(acls: Acls, fs: Bcpfs, shares: Exports, reals: Exports, travs: Exports, q: string, g: string)
    requires Lists3(fs, shares, reals, travs) && IsDirAcl(acls, q) && acls[q].Complete() && HasEntry(travs, q, g)
    ensures MayTraverse(acls, AfterPass(acls, fs, reals, travs), q, fs.FsGroupOrgUnit(g))
  {
    hide AfterPass, IsRealShares, IsTraversal, FileAcl.Complete;
    TraversalOnDisk(acls, fs, reals, travs, q, g);
    EntryHasPath(travs, q, g);
    MaskStays(acls, fs, shares, reals, travs, q);
  }

  lemma EntryHasPath(travs: Exports, q: string, g: string)
    requires HasEntry(travs, q, g)
    ensures q in PathsOf(travs)
  {
    var t :| t in travs && t.path == q && g in Grantees(t.acl);
    var k :| 0 <= k < |travs| && travs[k] == t;
    assert PathsOf(travs)[k] == q;
  }

  /** Only where an org unit is shared as a whole, a realpath is a traversal directory. */
  lemma NoEntryOnPart(fs: Bcpfs, shares: Exports, reals: Exports, travs: Exports, r: ExportEntry, p: string, g: string)
    requires Lists3(fs, shares, reals, travs) && r in reals && r.path == fs.Realpath(p)
    requires RelPath(p) && |Parts(p)| >= 2
    ensures !HasEntry(travs, r.path, g)
  {
    hide IsRealShares, IsTraversal, HasEntry, Split;
    if HasEntry(travs, r.path, g) {
      EntryOnShare(fs, shares, reals, travs, r, g);
      var s :| s in shares && fs.Realpath(s.path) == r.path && |Parts(s.path)| == 1;
      RealpathParts(fs, p);
      RealpathParts(fs, s.path);
    }
  }

  lemma WithinAnd(m: Mode, a: Mode, b: Mode)
    ensures m.Within(a.And(b)) <==> m.Within(a) && m.Within(b)
  {
  }

  /** A share on disk. */
  lemma GrantEffect(
    acls: Acls, fs: Bcpfs, shares: Exports, reals: Exports, travs: Exports, r: ExportEntry, p: string, ace: Ace)
    requires Lists3(fs, shares, reals, travs) && r in reals && r.path == fs.Realpath(p) && RelPath(p)
    requires IsDirAcl(acls, r.path) && acls[r.path].Complete() && ace.group in Grantees(r.acl)
    requires forall b :: ace.mode.Has(b) ==> Allows(r.acl, ace.group, b)
    ensures GrantedTo(fs, travs, acls, AfterPass(acls, fs, reals, travs), r, p, ace)
  {
    hide AfterPass, IsRealShares, IsTraversal, FileAcl.Complete, Allows, ListsOnce, HasEntry, Bcpfs.Realpath, Mode.Within, Mode.And,
         Bcpfs.FsGroupOrgUnit, MaskAfter, LastMode, RealsApart;
    var listed :| listed in r.acl && listed.group == ace.group;
    GrantOnDisk(acls, fs, reals, travs, r, listed);
    if |Parts(p)| >= 2 { NoEntryOnPart(fs, shares, reals, travs, r, p, ace.group); }
    var k :| 0 <= k < |reals| && reals[k] == r;
    assert PathsOf(reals)[k] == r.path;
    MaskStays(acls, fs, shares, reals, travs, r.path);
    WithinAnd(ace.mode, ModeOnDisk(travs, r, ace.group), MaskAfter(acls[r.path].access));
    if ListsOnce(r.acl, ace.group) { OnceGives(r.acl, ace.group, ace.mode); }
  }

  lemma RealListsGroup(fs: Bcpfs, shares: Exports, reals: Exports, s: ExportEntry, r: ExportEntry, g: string)
    requires IsRealShares(fs, shares, reals) && s in shares && r in reals && r.path == fs.Realpath(s.path) && g in Grantees(s.acl)
    ensures g in Grantees(r.acl)
  {
    assert Merged(fs, shares, r) && ShareGrants(fs, shares, r.path, g);
  }

  /** The owner of an imported share has a tree. */
  lemma OwnerHasTree(
    fs: Bcpfs, exps: Exports, imps: ImportFilter, trees: seq<ShareTree>, e: ExportEntry, ace: Ace) returns (k: nat)
    requires IsShareTrees(fs, Selected(exps, imps), trees)
    requires e in exps && ace in e.acl && FirstMatchAccepts(imps, e.path, ace)
    ensures k < |trees| && trees[k].orgUnit == FirstPart(e.path)
  {
    hide Selected;
    ImportedIsShared(exps, imps, e, ace);
    assert SharedWith(Selected(exps, imps), FirstPart(e.path), e.path);
    assert FirstPart(e.path) in OrgUnits(trees);
    k :| 0 <= k < |trees| && OrgUnits(trees)[k] == FirstPart(e.path);
  }

  /** The directories on the way to an existing one exist. */
  lemma WayExists(fs: Bcpfs, nodes: Nodes, acls: Acls, p: string, q: string)
    requires WellFormed(nodes) && DirsHaveAcls(fs, nodes, acls) && IsDir(nodes, Abs(fs, p)) && (q == p || Below(p, q))
    ensures IsDirAcl(acls, q)
  {
    hide WellFormed;
    if q != p {
      AbsAbove(fs, p, q);
      AncestorsAreDirs(nodes, Abs(fs, p), Abs(fs, q));
    }
  }

  /** ACLs and traversal of one imported share. */
  lemma ShareOpens(
    fs: Bcpfs, nodes: Nodes, acls: Acls, shares: Exports, reals: Exports, travs: Exports, s: ExportEntry, r: ExportEntry, ace: Ace)
    requires Lists3(fs, shares, reals, travs) && s in shares && r in reals && r.path == fs.Realpath(s.path) && ace in s.acl
    requires RelPath(s.path) && forall b :: ace.mode.Has(b) ==> Allows(r.acl, ace.group, b)
    requires WellFormed(nodes) && DirsHaveAcls(fs, nodes, acls) && forall p :: p in acls ==> acls[p].Complete()
    requires IsDir(nodes, Abs(fs, r.path)) && IsDir(nodes, Abs(fs, OuDir(fs, s.path)))
    ensures OpenTo(fs, travs, acls, AfterPass(acls, fs, reals, travs), r, s.path, ace)
  {
    hide AfterPass, IsRealShares, IsTraversal, FileAcl.Complete, Allows, HasEntry, WellFormed, MayTraverse, DirsHaveAcls, OuDir,
         Bcpfs.Realpath, Begin, GrantedTo;
    var g := ace.group;
    RealListsGroup(fs, shares, reals, s, r, g);
    TraversalOpen(fs, shares, reals, travs, s, g);
    WayExists(fs, nodes, acls, r.path, r.path);
    GrantEffect(acls, fs, shares, reals, travs, r, s.path, ace);
    var ou := OuDir(fs, s.path);
    WayExists(fs, nodes, acls, ou, ou);
    TraversalEffect(acls, fs, shares, reals, travs, ou, g);
    forall q | OnTheWay(fs, r.path, q) ensures MayTraverse(acls, AfterPass(acls, fs, reals, travs), q, fs.FsGroupOrgUnit(g)) {
      WayExists(fs, nodes, acls, r.path, q);
      TraversalEffect(acls, fs, shares, reals, travs, q, g);
    }
  }

  /** Exactly the imported modes, if every export lists each group once. */
  lemma ShareGives(
    fs: Bcpfs, nodes: Nodes, acls: Acls, exps: Exports, imps: ImportFilter, reals: Exports, travs: Exports, e: ExportEntry, ace: Ace,
    r: ExportEntry)
    requires Lists3(fs, Selected(exps, imps), reals, travs) && r in reals && r.path == fs.Realpath(e.path) && RelPath(e.path)
    requires e in exps && ace in e.acl && FirstMatchAccepts(imps, e.path, ace)
    requires WellFormed(nodes) && DirsHaveAcls(fs, nodes, acls) && IsDir(nodes, Abs(fs, r.path))
    ensures |Parts(e.path)| >= 2 && EachListsOnce(fs, exps, r.path) ==>
              GivesImported(fs, exps, imps, AfterPass(acls, fs, reals, travs), r.path, ace.group)
  {
    hide AfterPass, IsRealShares, IsTraversal, HasEntry, WellFormed, DirsHaveAcls, Bcpfs.Realpath, FirstMatchAccepts, GivesImported,
         EachListsOnce, Selected, Split;
    ImportedIsShared(exps, imps, e, ace);
    RealListsGroup(fs, Selected(exps, imps), reals, e.(acl := AcceptedAcl(e.acl, e.path, imps)), r, ace.group);
    WayExists(fs, nodes, acls, r.path, r.path);
    if |Parts(e.path)| >= 2 && EachListsOnce(fs, exps, r.path) {
      NoEntryOnPart(fs, Selected(exps, imps), reals, travs, r, e.path, ace.group);
      UnionOnDisk(acls, fs, exps, imps, reals, travs, r, ace.group);
    }
  }

  /** The org unit of a service path uses the service, its link is kept, and both programs
      mean the same link. */
  ghost predicate ServiceLinked(
    cfg: Config, services: seq<Service>, ous: seq<OrgUnit>, filter: Filter, ds: seq<string>, fs: Bcpfs, p: string, i: nat, j: nat)
    requires |ds| == |ous|
  {
    && i < |services| && j < |ous| && Parts(p)[0] == ous[j].name && |Parts(p)| >= 2 && Parts(p)[1] == services[i].name
    && filter(services[i], ous[j]) && Agree(fs, cfg, ous[j], services[i]) && Kept(cfg, services, ous, filter, ds, j, i)
    && (fs.IsFacilityPath(p) ==> Operates(ous[j], services[i]))
  }

  /** The whole system: after an apply run and a sharing pass on top, every
      imported share leads from the grantee's tree to its realpath, where the ACL on disk
      gives the mode, and every directory on the way may be traversed. A share of a service
      needs its service link, another one must not lie in a share tree. */
  lemma SharesWorkAfterApply(
    t: Tree, cfg: Config, services: seq<Service>, ous: seq<OrgUnit>, filter: Filter, ds: seq<string>, base: Nodes, i: nat, j: nat,
    fs: Bcpfs, pol: NamingPolicy, exps: Exports, imps: ImportFilter, reals: Exports, travs: Exports, trees: seq<ShareTree>,
    acls: Acls, e: ExportEntry, ace: Ace)
    requires LinkRun(t, cfg, services, ous, filter, ds, base) && |ds| == |ous|
    requires CompiledFrom(fs, pol, exps, imps, reals, travs, trees)
    requires e in exps && ace in e.acl && FirstMatchAccepts(imps, e.path, ace)
    requires if fs.IsServicePath(e.path) then ServiceLinked(cfg, services, ous, filter, ds, fs, e.path, i, j)
             else OutsideTrees(fs, trees, e.path)
    requires RootsThere(Applied(t, cfg, services, ous, filter).nodes, fs, trees)
    requires IsDir(Applied(t, cfg, services, ous, filter).nodes, Abs(fs, fs.Realpath(e.path)))
    requires DirsHaveAcls(fs, Applied(t, cfg, services, ous, filter).nodes, acls) && forall p :: p in acls ==> acls[p].Complete()
    ensures Resolve(AllTargets(Applied(t, cfg, services, ous, filter).nodes, fs, trees), Abs(fs, SharedPath(fs, ace.group, e.path))) ==
            Some(Abs(fs, fs.Realpath(e.path)))
    ensures exists r :: r in reals && r.path == fs.Realpath(e.path)
              && (forall b :: ace.mode.Has(b) ==> Allows(r.acl, ace.group, b))
              && OpenTo(fs, travs, acls, AfterPass(acls, fs, reals, travs), r, e.path, ace)
              && (|Parts(e.path)| >= 2 && EachListsOnce(fs, exps, r.path) ==>
                    GivesImported(fs, exps, imps, AfterPass(acls, fs, reals, travs), r.path, ace.group))
  {
    hide Applied, AllTargets, TreesFit, WellFormed, IsRealShares, IsTraversal, IsShareTrees, Resolve, Deployed, OnTheWay, HasEntry, Allows, OpenTo,
         FirstMatchAccepts, ServiceLinkTarget, Join, Selected, EachListsOnce, GivesImported, ExportsOk, LinkRun, RootsThere, DirsHaveAcls, Lists3, AfterPass,
         FileAcl.Complete, OuDir, Bcpfs.Realpath, OutsideTrees, ServiceLinked;
    var nodes := Applied(t, cfg, services, ous, filter).nodes;
    NamesOfEntry(fs, exps, e, ace);
    CompiledFits(fs, pol, exps, imps, reals, travs, trees);
    CompiledLists(fs, pol, exps, imps, reals, travs, trees);
    RunIsWellFormed(t, cfg, services, ous, filter, ds, base);
    var k := OwnerHasTree(fs, exps, imps, trees, e, ace);
    OuDirReal(nodes, fs, trees, k);
    OuDirAbs(fs, e.path);
    EntryDeployed(t, cfg, services, ous, filter, ds, base, i, j, fs, trees, e.path);
    RealpathStays(fs, nodes, trees, e.path);
    ImportedShareIsReachable(fs, exps, imps, reals, travs, trees, AllTargets(nodes, fs, trees), e, ace);
    var r :| r in reals && r.path == fs.Realpath(e.path) && forall b :: ace.mode.Has(b) ==> Allows(r.acl, ace.group, b);
    ImportedIsShared(exps, imps, e, ace);
    ShareGives(fs, nodes, acls, exps, imps, reals, travs, e, ace, r);
    ShareOpens(fs, nodes, acls, Selected(exps, imps), reals, travs, e.(acl := AcceptedAcl(e.acl, e.path, imps)), r, ace);
  }

  lemma RunIsWellFormed(t: Tree, cfg: Config, services: seq<Service>, ous: seq<OrgUnit>, filter: Filter, ds: seq<string>, base: Nodes)
    requires LinkRun(t, cfg, services, ous, filter, ds, base)
    ensures WellFormed(Applied(t, cfg, services, ous, filter).nodes)
  {
    hide WellFormed, Applied, AfterLinks, AfterOuDirs, ServicePart, Leads;
    RunStages(t, cfg, services, ous, filter);
  }

  /** Trees and service link are in place for one share. */
  lemma EntryDeployed(
    t: Tree, cfg: Config, services: seq<Service>, ous: seq<OrgUnit>, filter: Filter, ds: seq<string>, base: Nodes, i: nat, j: nat,
    fs: Bcpfs, trees: seq<ShareTree>, p: string)
    requires LinkRun(t, cfg, services, ous, filter, ds, base) && |ds| == |ous| && TreesFit(fs, trees) && RelPath(p)
    requires RootsThere(Applied(t, cfg, services, ous, filter).nodes, fs, trees)
    requires fs.IsServicePath(p) ==> ServiceLinked(cfg, services, ous, filter, ds, fs, p, i, j)
    requires IsDir(Applied(t, cfg, services, ous, filter).nodes, fs.rootdir + "/" + fs.orgUnitDir + "/" + FirstPart(p))
    ensures Deployed(fs, AllTargets(Applied(t, cfg, services, ous, filter).nodes, fs, trees), trees, p)
    ensures fs.IsServicePath(p) ==> OutsideTrees(fs, trees, p)
    ensures fs.IsServicePath(p) && fs.IsFacilityPath(p) ==> OwnsService(fs, Parts(p)[0], Parts(p)[1])
  {
    hide Applied, AllTargets, TreesFit, WellFormed, Deployed, LinkRun, Kept, RootsThere, ServiceLinkTarget, OutsideTrees, LinkDest;
    RunIsWellFormed(t, cfg, services, ous, filter, ds, base);
    var nodes := Applied(t, cfg, services, ous, filter).nodes;
    if fs.IsServicePath(p) {
      AppliedLink(t, cfg, services, ous, filter, ds, base, fs, i, j);
      NamesAreClean(services, ous, t, cfg, filter, ds, base, i, j);
      ServiceOutsideTrees(fs, trees, p);
      TreesDeployed(fs, cfg, ous[j], services[i], nodes, trees, p);
    } else {
      TreesAloneDeployed(fs, nodes, trees, p);
    }
  }

  lemma NamesAreClean(
    services: seq<Service>, ous: seq<OrgUnit>, t: Tree, cfg: Config, filter: Filter, ds: seq<string>, base: Nodes, i: nat, j: nat)
    requires LinkRun(t, cfg, services, ous, filter, ds, base) && i < |services| && j < |ous|
    ensures CleanName(services[i].name) && CleanName(ous[j].name)
  {
  }

  lemma NamesOfEntry(fs: Bcpfs, exps: Exports, e: ExportEntry, ace: Ace)
    requires ShareNamesClean(exps) && e in exps && ace in e.acl
    ensures RelPath(e.path) && CleanName(ace.group) && CleanNames(Parts(e.path)) && CleanName(FirstPart(e.path))
  {
    assert ace.group in Grantees(e.acl);
    assert Parts(e.path)[0] in Parts(e.path);
  }
}
