/** Which exports the compiler accepts, and what is in the share trees and in the traversal list,
    said of path components and ACL entries. */
module CompiledMeaning {
  import opened Strings
  import opened Paths
  import opened Sharing
  import opened Nesting
  import opened RealShares
  import opened Traversal
  import opened ShareTrees
  import opened Compiler

  ghost predicate GrantsTo(acl: Acl, g: string) {
    exists i :: 0 <= i < |acl| && acl[i].group == g
  }

  lemma GrantsMeans(acl: Acl, g: string)
    ensures GrantsTo(acl, g) <==> g in Grantees(acl)
  {
    if i :| 0 <= i < |acl| && acl[i].group == g { assert acl[i] in acl; }
    if ace :| ace in acl && ace.group == g { var i :| 0 <= i < |acl| && acl[i] == ace; }
  }

  // Share trees

  /** The share lies in the org unit, or the org unit may access it. */
  ghost predicate Involves(s: ExportEntry, ou: string) {
    Parts(s.path)[0] == ou || GrantsTo(s.acl, ou)
  }

  /** One `..` more than the path has components, and then the path. */
  ghost predicate Climbs(target: string, p: string) {
    var n, parts := |Parts(p)|, Parts(target);
    && |parts| == n + 1 + n
    && (forall i :: 0 <= i <= n ==> parts[i] == "..")
    && (forall i :: 0 <= i < n ==> parts[n + 1 + i] == Parts(p)[i])
  }

  /** The first `k` components of the path below `<orgdir>/<ou>/shared`: a directory, and for
      the whole path the link. */
  ghost predicate TreeFile(fs: Bcpfs, ou: string, p: string, k: nat, f: ShareFile) {
    && 1 <= k <= |Parts(p)|
    && Parts(f.path) == [fs.orgUnitDir, ou, "shared"] + Parts(p)[..k]
    && (k < |Parts(p)| ==> f.target == "")
    && (k == |Parts(p)| ==> Climbs(f.target, p))
  }

  lemma ClimbsMeans(target: string, p: string)
    requires RelPath(p)
    ensures Climbs(target, p) <==> target == LinkTarget(p)
  {
    hide LinkTarget, Split;
    LinkTargetParts(p);
    var n, want := |Parts(p)|, Ups(|Parts(p)| + 1) + Parts(p);
    if Climbs(target, p) {
      forall i | 0 <= i < |want| ensures Parts(target)[i] == want[i] {
        if i > n { assert Parts(target)[n + 1 + (i - n - 1)] == Parts(p)[i - n - 1]; }
      }
      assert Parts(target) == want;
      SplitInjective(target, LinkTarget(p), '/');
    }
  }

  lemma PathAt(fs: Bcpfs, ou: string, p: string, k: nat, path: string)
    requires fs.Valid() && CleanName(ou) && RelPath(p) && 1 <= k <= |Parts(p)|
    ensures Parts(path) == [fs.orgUnitDir, ou, "shared"] + Parts(p)[..k] <==> path == SharedPath(fs, ou, Ancestor(p, k))
  {
    hide Split;
    JoinAncestor(p, k);
    AncestorParts(p, k);
    SharedPathParts(fs, ou, Ancestor(p, k));
    if Parts(path) == [fs.orgUnitDir, ou, "shared"] + Parts(p)[..k] { SplitInjective(path, SharedPath(fs, ou, Ancestor(p, k)), '/'); }
  }

  lemma FileMeans(fs: Bcpfs, ou: string, p: string, f: ShareFile)
    requires fs.Valid() && CleanName(ou) && RelPath(p)
    ensures FileOfShare(fs, ou, p, f) <==> exists k: nat :: TreeFile(fs, ou, p, k, f)
  {
    hide Split, LinkTarget, SharedPath, Climbs;
    var n := |Parts(p)|;
    AncestorAll(p);
    ClimbsMeans(f.target, p);
    if FileOfShare(fs, ou, p, f) {
      if f == ShareFile(SharedPath(fs, ou, p), LinkTarget(p)) {
        PathAt(fs, ou, p, n, f.path);
        assert TreeFile(fs, ou, p, n, f);
      } else {
        var q :| Below(p, q) && f == ShareFile(SharedPath(fs, ou, q), "");
        BelowIffAncestor(p, q);
        var i :| 0 < i < n && q == Ancestor(p, i);
        PathAt(fs, ou, p, i, f.path);
        assert TreeFile(fs, ou, p, i, f);
      }
    }
    if k: nat :| TreeFile(fs, ou, p, k, f) {
      PathAt(fs, ou, p, k, f.path);
      if k < n { BelowIffAncestor(p, Ancestor(p, k)); }
    }
  }

  /** A share tree holds exactly the directories and links of the shares that involve its org
      unit. */
  lemma TreeMeans(fs: Bcpfs, shares: Exports, t: ShareTree, f: ShareFile)
    requires fs.Valid() && CleanName(t.orgUnit) && IsShareTree(fs, shares, t) && forall s :: s in shares ==> RelPath(s.path)
    ensures f in t.files <==> exists s, k: nat :: s in shares && Involves(s, t.orgUnit) && TreeFile(fs, t.orgUnit, s.path, k, f)
  {
    hide FileOfShare, TreeFile, Grantees, GrantsTo, Ascending;
    if f in t.files {
      var p :| SharedWith(shares, t.orgUnit, p) && FileOfShare(fs, t.orgUnit, p, f);
      var s :| s in shares && s.path == p && (FirstPart(p) == t.orgUnit || t.orgUnit in Grantees(s.acl));
      GrantsMeans(s.acl, t.orgUnit);
      FileMeans(fs, t.orgUnit, p, f);
      var k: nat :| TreeFile(fs, t.orgUnit, p, k, f);
      assert Involves(s, t.orgUnit) && TreeFile(fs, t.orgUnit, s.path, k, f);
    }
    if s, k: nat :| s in shares && Involves(s, t.orgUnit) && TreeFile(fs, t.orgUnit, s.path, k, f) {
      GrantsMeans(s.acl, t.orgUnit);
      FileMeans(fs, t.orgUnit, s.path, f);
      assert SharedWith(shares, t.orgUnit, s.path);
    }
  }

  /** An org unit has a tree if and only if some share involves it. */
  lemma TreesMean(fs: Bcpfs, shares: Exports, trees: seq<ShareTree>, ou: string)
    requires IsShareTrees(fs, shares, trees)
    ensures (exists i :: 0 <= i < |trees| && trees[i].orgUnit == ou) <==> exists s :: s in shares && Involves(s, ou)
  {
    hide Grantees, GrantsTo, Ascending, AllShareTrees, OrgUnits;
    var ous := OrgUnits(trees);
    assert (exists i :: 0 <= i < |trees| && trees[i].orgUnit == ou) <==> ou in ous by {
      if i :| 0 <= i < |trees| && trees[i].orgUnit == ou { assert ous[i] in ous; }
      if ou in ous { var i :| 0 <= i < |ous| && ous[i] == ou; }
    }
    assert ou in ous <==> exists p :: SharedWith(shares, ou, p);
    SomeoneInvolves(shares, ou);
  }

  lemma SomeoneInvolves(shares: Exports, ou: string)
    ensures (exists p :: SharedWith(shares, ou, p)) <==> exists s :: s in shares && Involves(s, ou)
  {
    hide Grantees, GrantsTo;
    if p :| SharedWith(shares, ou, p) {
      var s :| s in shares && s.path == p && (FirstPart(p) == ou || ou in Grantees(s.acl));
      GrantsMeans(s.acl, ou);
    }
    if s :| s in shares && Involves(s, ou) {
      GrantsMeans(s.acl, ou);
      assert SharedWith(shares, ou, s.path);
    }
  }

  // Traversal

  /** `q` are the first components of the realpath, at least as far as the org unit directory or,
      in the service tree, as far as a directory of the service. */
  ghost predicate PartWay(fs: Bcpfs, rp: string, q: string) {
    exists k :: (if Parts(rp)[0] == fs.serviceDir then 3 else 2) <= k < |Parts(rp)| && Parts(q) == Parts(rp)[..k]
  }

  lemma WayMeans(fs: Bcpfs, rp: string, q: string)
    ensures OnTheWay(fs, rp, q) <==> PartWay(fs, rp, q)
  {
    hide Split;
    BelowIffParts(rp, q);
    if OnTheWay(fs, rp, q) { assert Parts(q) == Parts(rp)[..|Parts(q)|]; }
  }

  /** A group has a traversal entry exactly on the way to what it may access, and on the
      directories of the org units whose shares it may access. */
  lemma TraversalMeans(fs: Bcpfs, shares: Exports, reals: Exports, travs: Exports, q: string, g: string)
    requires fs.Valid() && IsTraversal(fs, shares, reals, travs) && forall s :: s in shares ==> RelPath(s.path)
    ensures HasEntry(travs, q, g) <==>
            || (exists r :: r in reals && GrantsTo(r.acl, g) && PartWay(fs, r.path, q))
            || (exists s :: s in shares && GrantsTo(s.acl, g) && Parts(q) == [fs.orgUnitDir, Parts(s.path)[0]])
  {
    hide Split, HasEntry, OnTheWay, PartWay, Grantees, GrantsTo, NoDuplicates, AllTraverseOnly, OuDir;
    forall r | r in reals ensures (OnTheWay(fs, r.path, q) <==> PartWay(fs, r.path, q)) && (GrantsTo(r.acl, g) <==> g in Grantees(r.acl)) {
      WayMeans(fs, r.path, q);
      GrantsMeans(r.acl, g);
    }
    forall s | s in shares
      ensures (q == OuDir(fs, s.path) <==> Parts(q) == [fs.orgUnitDir, Parts(s.path)[0]]) && (GrantsTo(s.acl, g) <==> g in Grantees(s.acl))
    {
      OuDirParts(fs, s.path);
      GrantsMeans(s.acl, g);
      if Parts(q) == Parts(OuDir(fs, s.path)) { SplitInjective(q, OuDir(fs, s.path), '/'); }
    }
    assert HasEntry(travs, q, g) <==> RealWants(fs, reals, q, g) || ShareWants(fs, shares, q, g);
  }

  // Which exports are accepted

  /** Some rule allows the path, and every rule before it does not match or passes the path on. */
  ghost predicate PolicyLets(pol: NamingPolicy, path: string) {
    exists i :: 0 <= i < |pol| && pol[i].matches(path) && pol[i].action == Allow && PassedOn(pol, path, i)
  }

  ghost predicate PassedOn(pol: NamingPolicy, path: string, i: nat)
    requires i <= |pol|
  {
    forall j :: 0 <= j < i ==> !pol[j].matches(path) || pol[j].action == PassOn
  }

  /** No entry is for the org unit of the path or for the facility that operates its service. */
  ghost predicate StaysOut(fs: Bcpfs, e: ExportEntry) {
    var parts := Parts(e.path);
    forall k :: 0 <= k < |e.acl| ==>
      && e.acl[k].group != parts[0]
      && (|parts| >= 2 && parts[1] in fs.facilityByService ==> e.acl[k].group != fs.facilityByService[parts[1]] + "-facility")
  }

  /** Neither path is the other one or contains it. */
  ghost predicate PathsApart(p: string, q: string) {
    !(Parts(p) <= Parts(q)) && !(Parts(q) <= Parts(p))
  }

  ghost predicate Acceptable(fs: Bcpfs, exps: Exports, pol: NamingPolicy) {
    && (forall i :: 0 <= i < |exps| ==> PolicyLets(pol, exps[i].path) && StaysOut(fs, exps[i]))
    && (forall i, j :: 0 <= i < j < |exps| ==> PathsApart(exps[i].path, exps[j].path))
    && (forall i, j :: 0 <= i < |exps| && 0 <= j < |exps| ==>
          !(Parts(fs.Realpath(exps[i].path)) < Parts(fs.Realpath(exps[j].path))))
  }

  lemma PolicyMeans(pol: NamingPolicy, path: string)
    ensures PolicyAllows(pol, path) <==> PolicyLets(pol, path)
  {
    if i :| 0 <= i < |pol| && pol[i].Apply(path) == Allow && forall j :: 0 <= j < i ==> pol[j].Apply(path) == PassOn {
      forall j | 0 <= j < i ensures !pol[j].matches(path) || pol[j].action == PassOn {
        assert pol[j].Apply(path) == PassOn;
      }
      assert PassedOn(pol, path, i);
    }
    if i :| 0 <= i < |pol| && pol[i].matches(path) && pol[i].action == Allow && PassedOn(pol, path, i) {
      assert pol[i].Apply(path) == Allow;
    }
  }

  lemma ScopeMeans(fs: Bcpfs, e: ExportEntry)
    ensures ScopeOk(fs, e) <==> StaysOut(fs, e)
  {
    hide Split, Grantees;
    forall g ensures (exists k :: 0 <= k < |e.acl| && e.acl[k].group == g) <==> g in Grantees(e.acl) {
      GrantsMeans(e.acl, g);
    }
  }

  lemma BelowOrSame(p: string, q: string)
    ensures PathsApart(p, q) <==> p != q && !Below(p, q) && !Below(q, p)
  {
    hide Split;
    BelowIffParts(p, q);
    BelowIffParts(q, p);
    if Parts(p) == Parts(q) { SplitInjective(p, q, '/'); }
  }

  lemma NestingMeans(ps: seq<string>)
    ensures NoDuplicates(ps) && Antichain(Elements(ps)) <==> forall i, j :: 0 <= i < j < |ps| ==> PathsApart(ps[i], ps[j])
  {
    hide PathsApart;
    forall i, j | 0 <= i < j < |ps| ensures PathsApart(ps[i], ps[j]) <==> ps[i] != ps[j] && !Below(ps[i], ps[j]) && !Below(ps[j], ps[i]) {
      BelowOrSame(ps[i], ps[j]);
    }
    if NoDuplicates(ps) && Antichain(Elements(ps)) {
      forall i, j | 0 <= i < j < |ps| ensures PathsApart(ps[i], ps[j]) {
        assert ps[i] in Elements(ps) && ps[j] in Elements(ps);
      }
    }
    if forall i, j :: 0 <= i < j < |ps| ==> PathsApart(ps[i], ps[j]) {
      forall p, l | p in Elements(ps) && l in Elements(ps) ensures !Below(l, p) && !Below(p, l) {
        var i :| 0 <= i < |ps| && ps[i] == p;
        var j :| 0 <= j < |ps| && ps[j] == l;
        if i == j { BelowIrreflexive(p); }
      }
    }
  }

  lemma RealNestingMeans(ps: seq<string>)
    ensures Antichain(Elements(ps)) <==> forall i, j :: 0 <= i < |ps| && 0 <= j < |ps| ==> !(Parts(ps[i]) < Parts(ps[j]))
  {
    hide Split;
    forall i, j | 0 <= i < |ps| && 0 <= j < |ps| ensures Parts(ps[i]) < Parts(ps[j]) <==> Below(ps[j], ps[i]) {
      BelowIffParts(ps[j], ps[i]);
    }
    if Antichain(Elements(ps)) {
      forall i, j | 0 <= i < |ps| && 0 <= j < |ps| ensures !Below(ps[j], ps[i]) {
        assert ps[i] in Elements(ps) && ps[j] in Elements(ps);
      }
    }
  }

  lemma PathsAt(exps: Exports)
    ensures |PathsOf(exps)| == |exps| && forall i :: 0 <= i < |exps| ==> PathsOf(exps)[i] == exps[i].path
  {
  }

  /** The compiler accepts exactly these exports. */
  lemma AcceptedMean(fs: Bcpfs, exps: Exports, pol: NamingPolicy)
    ensures ExportsOk(fs, exps, pol) <==> Acceptable(fs, exps, pol)
  {
    hide Split, PolicyAllows, PolicyLets, ScopeOk, StaysOut, Antichain, NoDuplicates, PathsApart, Bcpfs.Realpath;
    PathsAt(exps);
    NestingMeans(PathsOf(exps));
    RealNestingMeans(Realpaths(fs, exps));
    forall i | 0 <= i < |exps|
      ensures (PolicyAllows(pol, exps[i].path) <==> PolicyLets(pol, exps[i].path)) && (ScopeOk(fs, exps[i]) <==> StaysOut(fs, exps[i]))
    {
      PolicyMeans(pol, exps[i].path);
      ScopeMeans(fs, exps[i]);
    }
    assert (forall e :: e in exps ==> PolicyAllows(pol, e.path) && ScopeOk(fs, e)) <==>
           forall i :: 0 <= i < |exps| ==> PolicyAllows(pol, exps[i].path) && ScopeOk(fs, exps[i]);
  }

  // The order of real shares

  lemma {:induction false} FirstPlace(s: seq<string>, i: nat) returns (p: nat)
    requires i < |FirstOccurrences(s)|
    ensures p < |s| && s[p] == FirstOccurrences(s)[i] && |FirstOccurrences(s[..p])| == i && s[p] !in s[..p]
  {
    var n := |s| - 1;
    if i < |FirstOccurrences(s[..n])| {
      p := FirstPlace(s[..n], i);
      assert s[..n][..p] == s[..p];
    } else {
      p := n;
      var t := FirstOccurrences(s[..n]);
      assert s[n] !in Elements(t);
    }
  }

  lemma {:induction false} FirstsGrow(s: seq<string>, p: nat, q: nat)
    requires p <= q <= |s|
    ensures |FirstOccurrences(s[..p])| <= |FirstOccurrences(s[..q])|
    decreases q - p
  {
    if p < q {
      FirstsGrow(s, p, q - 1);
      assert s[..q][..q - 1] == s[..q - 1];
    }
  }

  /** Real shares come in the order in which their realpaths occur first. */
  lemma RealsInOrder(fs: Bcpfs, shares: Exports, reals: Exports, i: nat, j: nat) returns (p: nat, q: nat)
    requires IsRealShares(fs, shares, reals) && i < j < |reals|
    ensures p < q < |shares| && fs.Realpath(shares[p].path) == reals[i].path && fs.Realpath(shares[q].path) == reals[j].path
    ensures forall m :: 0 <= m < p ==> fs.Realpath(shares[m].path) != reals[i].path
    ensures forall m :: 0 <= m < q ==> fs.Realpath(shares[m].path) != reals[j].path
  {
    hide FirstOccurrences, Bcpfs.Realpath, Merged, Starts;
    var rps := Realpaths(fs, shares);
    PathsAt(reals);
    p := FirstPlace(rps, i);
    q := FirstPlace(rps, j);
    if q <= p { FirstsGrow(rps, q, p); }
    assert forall m :: 0 <= m < p ==> rps[..p][m] == rps[m];
    assert forall m :: 0 <= m < q ==> rps[..q][m] == rps[m];
  }
}
