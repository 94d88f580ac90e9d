/** What the checker reports, said of paths, links and directories instead of its lists. */
module CheckMeaning {
  import opened Strings
  import opened Paths
  import opened Sharing
  import opened FileSystem
  import opened Organization
  import opened FsApply
  import opened ApplySteps
  import opened FsCheck
  import opened ApplySymlinks
  import opened ApplyLinks
  import opened FreshApply
  import opened PosixAcl
  import opened DirScripts
  import opened FsckAcl
  import opened ScriptsMeetCheck
  import opened AclMeaning

  // Which paths are listed

  ghost predicate PathsIn(entries: seq<Entry>, paths: set<string>) {
    forall i :: 0 <= i < |entries| ==> entries[i].path in paths
  }

  lemma PathsConcat(a: seq<Entry>, b: seq<Entry>, paths: set<string>)
    requires PathsIn(a, paths) && PathsIn(b, paths)
    ensures PathsIn(a + b, paths)
  {
  }

  lemma {:induction false} ServiceDirsIn(root: string, services: seq<Service>, k: nat)
    requires k <= |services|
    ensures PathsIn(ServiceDirs(root, services[..k]), ServicePaths(root, services))
  {
    if k > 0 {
      ServiceDirsIn(root, services, k - 1);
      Last(services, k - 1);
    }
  }

  lemma {:induction false} SouDirsIn(root: string, services: seq<Service>, i: nat, ous: seq<OrgUnit>, filter: Filter, k: nat)
    requires i < |services| && k <= |ous|
    ensures PathsIn(SouDirs(root, services[i], ous[..k], filter), SouPaths(root, services, ous, filter))
  {
    if k > 0 {
      SouDirsIn(root, services, i, ous, filter, k - 1);
      Last(ous, k - 1);
      var more := if filter(services[i], ous[k - 1]) then [SouEntry(root, services[i], ous[k - 1])] else [];
      assert PathsIn(more, SouPaths(root, services, ous, filter));
      PathsConcat(SouDirs(root, services[i], ous[..k - 1], filter), more, SouPaths(root, services, ous, filter));
    }
  }

  lemma {:induction false} AllSouDirsIn(root: string, services: seq<Service>, ous: seq<OrgUnit>, filter: Filter, k: nat)
    requires k <= |services|
    ensures PathsIn(AllSouDirs(root, services[..k], ous, filter), SouPaths(root, services, ous, filter))
  {
    hide SouPaths;
    if k > 0 {
      AllSouDirsIn(root, services, ous, filter, k - 1);
      Last(services, k - 1);
      SouDirsIn(root, services, k - 1, ous, filter, |ous|);
      assert ous[..|ous|] == ous;
      PathsConcat(AllSouDirs(root, services[..k - 1], ous, filter), SouDirs(root, services[k - 1], ous, filter),
        SouPaths(root, services, ous, filter));
    }
  }

  lemma {:induction false} OrgUnitDirsIn(root: string, ous: seq<OrgUnit>, k: nat)
    requires k <= |ous|
    ensures PathsIn(OrgUnitDirs(root, ous[..k]), OuPaths(root, ous))
  {
    if k > 0 {
      OrgUnitDirsIn(root, ous, k - 1);
      Last(ous, k - 1);
    }
  }

  lemma {:induction false} OuLinksIn(
    root: string, serviceDir: string, ous: seq<OrgUnit>, j: nat, services: seq<Service>, filter: Filter, k: nat)
    requires j < |ous| && k <= |services|
    ensures PathsIn(OuLinks(root, serviceDir, ous[j], services[..k], filter), LinkPaths(root, services, ous, filter))
  {
    hide Join;
    if k > 0 {
      OuLinksIn(root, serviceDir, ous, j, services, filter, k - 1);
      Last(services, k - 1);
      var more := if filter(services[k - 1], ous[j]) then [ServiceLinkEntry(root, serviceDir, ous[j], services[k - 1])] else [];
      assert PathsIn(more, LinkPaths(root, services, ous, filter));
      PathsConcat(OuLinks(root, serviceDir, ous[j], services[..k - 1], filter), more, LinkPaths(root, services, ous, filter));
    }
  }

  lemma {:induction false} AllOuLinksIn(
    root: string, serviceDir: string, ous: seq<OrgUnit>, services: seq<Service>, filter: Filter, k: nat)
    requires k <= |ous|
    ensures PathsIn(AllOuLinks(root, serviceDir, ous[..k], services, filter), LinkPaths(root, services, ous, filter))
  {
    hide LinkPaths;
    if k > 0 {
      AllOuLinksIn(root, serviceDir, ous, services, filter, k - 1);
      Last(ous, k - 1);
      OuLinksIn(root, serviceDir, ous, k - 1, services, filter, |services|);
      assert services[..|services|] == services;
      PathsConcat(AllOuLinks(root, serviceDir, ous[..k - 1], services, filter), OuLinks(root, serviceDir, ous[k - 1], services, filter),
        LinkPaths(root, services, ous, filter));
    }
  }

  lemma {:induction false} OuSubdirsIn(root: string, ous: seq<OrgUnit>, j: nat, k: nat)
    requires j < |ous| && k <= |ous[j].subdirs|
    ensures PathsIn(OuSubdirs(root, ous[j], ous[j].subdirs[..k]), SubdirPaths(root, ous))
  {
    if k > 0 {
      OuSubdirsIn(root, ous, j, k - 1);
      Last(ous[j].subdirs, k - 1);
      assert PathsIn([SubdirEntry(root, ous[j], ous[j].subdirs[k - 1])], SubdirPaths(root, ous));
      PathsConcat(OuSubdirs(root, ous[j], ous[j].subdirs[..k - 1]), [SubdirEntry(root, ous[j], ous[j].subdirs[k - 1])],
        SubdirPaths(root, ous));
    }
  }

  lemma {:induction false} AllSubdirsIn(root: string, ous: seq<OrgUnit>, k: nat)
    requires k <= |ous|
    ensures PathsIn(AllSubdirs(root, ous[..k]), SubdirPaths(root, ous))
  {
    hide SubdirPaths;
    if k > 0 {
      AllSubdirsIn(root, ous, k - 1);
      Last(ous, k - 1);
      OuSubdirsIn(root, ous, k - 1, |ous[k - 1].subdirs|);
      assert ous[k - 1].subdirs[..|ous[k - 1].subdirs|] == ous[k - 1].subdirs;
      PathsConcat(AllSubdirs(root, ous[..k - 1]), OuSubdirs(root, ous[k - 1], ous[k - 1].subdirs), SubdirPaths(root, ous));
    }
  }

  lemma PathsMore(a: seq<Entry>, p: set<string>, q: set<string>)
    requires PathsIn(a, p) && p <= q
    ensures PathsIn(a, q)
  {
  }

  /** Every path that should be there. */
  function Expected(cfg: Config, services: seq<Service>, ous: seq<OrgUnit>, filter: Filter): set<string> {
    {cfg.rootdir} + DirPaths(cfg, services, ous, filter) + LinkPaths(cfg.OrgUnitRoot(), services, ous, filter)
  }

  /** The entries are for exactly these paths. */
  lemma ListedMeans(cfg: Config, services: seq<Service>, ous: seq<OrgUnit>, filter: Filter, p: string)
    ensures Listed(FsCheck.Entries(cfg, services, ous, filter), p) <==> p in Expected(cfg, services, ous, filter)
  {
    hide Listed, ServicePaths, SouPaths, OuPaths, LinkPaths, SubdirPaths;
    var s, o := cfg.ServiceRoot(), cfg.OrgUnitRoot();
    if p in Expected(cfg, services, ous, filter) {
      if p == cfg.rootdir { RootListed(cfg, services, ous, filter); } else { ExpectedListed(cfg, services, ous, filter, p); }
    }
    EntriesExpected(cfg, services, ous, filter);
    ListedExpected(FsCheck.Entries(cfg, services, ous, filter), Expected(cfg, services, ous, filter), p);
  }

  lemma ListedExpected(entries: seq<Entry>, paths: set<string>, p: string)
    requires PathsIn(entries, paths)
    ensures Listed(entries, p) ==> p in paths
  {
  }

  lemma RootListed(cfg: Config, services: seq<Service>, ous: seq<OrgUnit>, filter: Filter)
    ensures Listed(FsCheck.Entries(cfg, services, ous, filter), cfg.rootdir)
  {
    hide ServiceDirs, AllSouDirs, OrgUnitDirs, AllOuLinks, AllSubdirs;
    assert FsCheck.Entries(cfg, services, ous, filter)[0].path == cfg.rootdir;
  }

  lemma EntriesExpected(cfg: Config, services: seq<Service>, ous: seq<OrgUnit>, filter: Filter)
    ensures PathsIn(FsCheck.Entries(cfg, services, ous, filter), Expected(cfg, services, ous, filter))
  {
    hide ServicePaths, SouPaths, OuPaths, LinkPaths, SubdirPaths, PathsIn;
    var s, o, all := cfg.ServiceRoot(), cfg.OrgUnitRoot(), Expected(cfg, services, ous, filter);
    assert services[..|services|] == services && ous[..|ous|] == ous;
    ServiceDirsIn(s, services, |services|);
    AllSouDirsIn(s, services, ous, filter, |services|);
    OrgUnitDirsIn(o, ous, |ous|);
    AllOuLinksIn(o, cfg.serviceDir, ous, services, filter, |ous|);
    AllSubdirsIn(o, ous, |ous|);
    PathsMore(ServiceDirs(s, services), ServicePaths(s, services), all);
    PathsMore(AllSouDirs(s, services, ous, filter), SouPaths(s, services, ous, filter), all);
    PathsMore(OrgUnitDirs(o, ous), OuPaths(o, ous), all);
    PathsMore(AllOuLinks(o, cfg.serviceDir, ous, services, filter), LinkPaths(o, services, ous, filter), all);
    PathsMore(AllSubdirs(o, ous), SubdirPaths(o, ous), all);
    var tops := [DirEntry(cfg.rootdir, Toplevel), DirEntry(s, Toplevel), DirEntry(o, Toplevel)];
    TopsIn(tops, all);
    PathsConcat(tops, ServiceDirs(s, services), all);
    PathsConcat(tops + ServiceDirs(s, services), AllSouDirs(s, services, ous, filter), all);
    PathsConcat(tops + ServiceDirs(s, services) + AllSouDirs(s, services, ous, filter), OrgUnitDirs(o, ous), all);
    PathsConcat(tops + ServiceDirs(s, services) + AllSouDirs(s, services, ous, filter) + OrgUnitDirs(o, ous),
      AllOuLinks(o, cfg.serviceDir, ous, services, filter), all);
    PathsConcat(tops + ServiceDirs(s, services) + AllSouDirs(s, services, ous, filter) + OrgUnitDirs(o, ous) +
      AllOuLinks(o, cfg.serviceDir, ous, services, filter), AllSubdirs(o, ous), all);
  }

  lemma TopsIn(tops: seq<Entry>, all: set<string>)
    requires forall e :: e in tops ==> e.path in all
    ensures PathsIn(tops, all)
  {
  }

  // Unexpected paths

  /** On a tree whose top directory is reached through no link, nothing is unexpected exactly
      if every path down to two levels below it is an expected one or an explicit link. */
  lemma UnexpectedMeans(nodes: Nodes, cfg: Config, services: seq<Service>, ous: seq<OrgUnit>, filter: Filter, top: string)
    requires WellFormed(nodes) && IsDir(nodes, top) && top != ""
    ensures Found(nodes, top).Some?
    ensures NoUnexpected(nodes, top, FsCheck.Entries(cfg, services, ous, filter), ExplicitMap(cfg.rootdir, cfg.symlinks)) <==>
            && (top in Expected(cfg, services, ous, filter) || top in ExplicitPaths(cfg.rootdir, cfg.symlinks))
            && (forall a :: CleanName(a) && top + "/" + a in nodes ==>
                  top + "/" + a in Expected(cfg, services, ous, filter) + ExplicitPaths(cfg.rootdir, cfg.symlinks))
            && (forall a, b :: CleanName(a) && CleanName(b) && top + "/" + a + "/" + b in nodes ==>
                  top + "/" + a + "/" + b in Expected(cfg, services, ous, filter) + ExplicitPaths(cfg.rootdir, cfg.symlinks))
  {
    hide Found, WellFormed, Listed, Expected, ExplicitPaths, CleanName;
    FoundMeans(nodes, top);
    ExplicitKeys(cfg.rootdir, cfg.symlinks);
    var entries, links := FsCheck.Entries(cfg, services, ous, filter), ExplicitMap(cfg.rootdir, cfg.symlinks);
    var good := Expected(cfg, services, ous, filter) + ExplicitPaths(cfg.rootdir, cfg.symlinks);
    hide FsCheck.Entries, ExplicitMap;
    forall p ensures Listed(entries, p) || p in links <==> p in good {
      ListedMeans(cfg, services, ous, filter, p);
    }
    ByDepth(nodes, top, good);
    assert NoUnexpected(nodes, top, entries, links) <==> forall q :: DepthTwo(nodes, top, q) ==> q in good;
  }

  lemma ByDepth(nodes: Nodes, top: string, good: set<string>)
    ensures (forall q :: DepthTwo(nodes, top, q) ==> q in good) <==>
            && top in good
            && (forall a :: CleanName(a) && top + "/" + a in nodes ==> top + "/" + a in good)
            && (forall a, b :: CleanName(a) && CleanName(b) && top + "/" + a + "/" + b in nodes ==> top + "/" + a + "/" + b in good)
  {
    hide CleanName;
    if forall q :: DepthTwo(nodes, top, q) ==> q in good {
      assert DepthTwo(nodes, top, top);
      forall a | CleanName(a) && top + "/" + a in nodes ensures top + "/" + a in good {
        assert DepthTwo(nodes, top, top + "/" + a);
      }
      forall a, b | CleanName(a) && CleanName(b) && top + "/" + a + "/" + b in nodes ensures top + "/" + a + "/" + b in good {
        assert DepthTwo(nodes, top, top + "/" + a + "/" + b);
      }
    }
  }

  /** A directory of a service that is for no accepted org unit and no explicit link is
      reported. */
  lemma OldSubdirReported(
    nodes: Nodes, cfg: Config, services: seq<Service>, ous: seq<OrgUnit>, filter: Filter, srv: string, gone: string)
    requires cfg.Valid() && CleanOrg(services, ous) && CleanName(srv) && CleanName(gone)
    requires WellFormed(nodes) && IsDir(nodes, cfg.ServiceRoot()) && cfg.ServiceRoot() + "/" + srv + "/" + gone in nodes
    requires forall i, j :: 0 <= i < |services| && 0 <= j < |ous| && services[i].name == srv && ous[j].name == gone ==>
               !filter(services[i], ous[j])
    requires cfg.ServiceRoot() + "/" + srv + "/" + gone !in ExplicitPaths(cfg.rootdir, cfg.symlinks)
    ensures Found(nodes, cfg.ServiceRoot()).Some?
    ensures !NoUnexpected(nodes, cfg.ServiceRoot(), FsCheck.Entries(cfg, services, ous, filter), ExplicitMap(cfg.rootdir, cfg.symlinks))
  {
    hide Found, WellFormed, FsCheck.Entries, ExplicitMap, NoUnexpected, ExplicitPaths;
    UnexpectedMeans(nodes, cfg, services, ous, filter, cfg.ServiceRoot());
    NotExpected(cfg, services, ous, filter, srv, gone);
  }

  lemma NotExpected(cfg: Config, services: seq<Service>, ous: seq<OrgUnit>, filter: Filter, srv: string, gone: string)
    requires cfg.Valid() && CleanOrg(services, ous) && CleanName(srv) && CleanName(gone)
    requires forall i, j :: 0 <= i < |services| && 0 <= j < |ous| && services[i].name == srv && ous[j].name == gone ==>
               !filter(services[i], ous[j])
    ensures cfg.ServiceRoot() + "/" + srv + "/" + gone !in Expected(cfg, services, ous, filter)
  {
    hide Split, KeyPath;
    AbsIsKey(cfg.rootdir);
    var s, o := cfg.ServiceRoot(), cfg.OrgUnitRoot();
    var n := |Parts(cfg.rootdir)|;
    KeyChild(cfg.rootdir, cfg.serviceDir);
    KeyChild(cfg.rootdir, cfg.orgUnitDir);
    TwoDown(s, srv, gone);
    var p := s + "/" + srv + "/" + gone;
    assert Parts(p) == Parts(cfg.rootdir) + [cfg.serviceDir] + [srv, gone];
    assert |Parts(p)| == n + 3 && Parts(p)[n] == cfg.serviceDir && Parts(p)[n + 1] == srv && Parts(p)[n + 2] == gone;
    if p in ServicePaths(s, services) {
      var i :| 0 <= i < |services| && p == s + "/" + services[i].name;
      KeyChild(s, services[i].name);
    }
    if p in SouPaths(s, services, ous, filter) {
      var i, j :| 0 <= i < |services| && 0 <= j < |ous| && filter(services[i], ous[j]) && p == s + "/" + services[i].name + "/" + ous[j].name;
      TwoDown(s, services[i].name, ous[j].name);
    }
    if p in OuPaths(o, ous) {
      var i :| 0 <= i < |ous| && p == o + "/" + ous[i].name;
      KeyChild(o, ous[i].name);
    }
    if p in SubdirPaths(o, ous) {
      var i, j :| 0 <= i < |ous| && 0 <= j < |ous[i].subdirs| && p == o + "/" + ous[i].name + "/" + ous[i].subdirs[j].name;
      TwoDown(o, ous[i].name, ous[i].subdirs[j].name);
    }
    if p in LinkPaths(o, services, ous, filter) {
      var i, j :| 0 <= i < |services| && 0 <= j < |ous| && filter(services[i], ous[j]) && p == o + "/" + ous[j].name + "/" + services[i].name;
      TwoDown(o, ous[j].name, services[i].name);
    }
  }

  /** For example, `old` below the service `mic`, and no org unit is called `old`. */
  lemma UnexpectedExample(nodes: Nodes, cfg: Config, services: seq<Service>, ous: seq<OrgUnit>, filter: Filter)
    requires cfg.Valid() && CleanOrg(services, ous) && cfg.symlinks == []
    requires WellFormed(nodes) && IsDir(nodes, cfg.ServiceRoot()) && IsDir(nodes, cfg.ServiceRoot() + "/mic/old")
    requires forall j :: 0 <= j < |ous| ==> ous[j].name != "old"
    ensures Found(nodes, cfg.ServiceRoot()).Some?
    ensures !NoUnexpected(nodes, cfg.ServiceRoot(), FsCheck.Entries(cfg, services, ous, filter), ExplicitMap(cfg.rootdir, cfg.symlinks))
  {
    hide Found, WellFormed, FsCheck.Entries, ExplicitMap, NoUnexpected;
    assert cfg.ServiceRoot() + "/" + "mic" + "/" + "old" == cfg.ServiceRoot() + "/mic/old";
    OldSubdirReported(nodes, cfg, services, ous, filter, "mic", "old");
  }

  // Directories and links

  /** A directory that is missing fails the check of ACLs. */
  lemma MissingReported(t: Tree, cfg: Config, services: seq<Service>, ous: seq<OrgUnit>, filter: Filter, p: string)
    requires forall i :: 0 <= i < |services| ==> services[i].access != Unspecified
    requires p == cfg.rootdir || p in DirPaths(cfg, services, ous, filter)
    requires p !in LinkPaths(cfg.OrgUnitRoot(), services, ous, filter) && Missing(t.nodes, p)
    ensures ValidEntries(FsCheck.Entries(cfg, services, ous, filter))
    ensures !AclsPass(t, FsCheck.Entries(cfg, services, ous, filter))
  {
    hide DirPaths, LinkPaths, AclsPass, Missing, FsCheck.Entries;
    EntriesValid(cfg, services, ous, filter);
    ListedMeans(cfg, services, ous, filter, p);
    var entries := FsCheck.Entries(cfg, services, ous, filter);
    var i :| 0 <= i < |entries| && entries[i].path == p;
    LinkEntriesIn(cfg, services, ous, filter, i);
    MissingFails(t, entries);
  }

  lemma LinkEntriesIn(cfg: Config, services: seq<Service>, ous: seq<OrgUnit>, filter: Filter, i: nat)
    requires i < |FsCheck.Entries(cfg, services, ous, filter)|
    ensures var e := FsCheck.Entries(cfg, services, ous, filter)[i];
            e.LinkEntry? ==> e.path in LinkPaths(cfg.OrgUnitRoot(), services, ous, filter)
  {
    hide LinkPaths;
    var s, o := cfg.ServiceRoot(), cfg.OrgUnitRoot();
    ServiceDirsAreDirs(s, services);
    AllSouDirsAreDirs(s, services, ous, filter);
    OrgUnitDirsAreDirs(o, ous);
    AllSubdirsAreDirs(o, ous);
    AllOuLinksIn(o, cfg.serviceDir, ous, services, filter, |ous|);
    assert ous[..|ous|] == ous;
    hide ServiceDirs, AllSouDirs, OrgUnitDirs, AllOuLinks, AllSubdirs;
    var tops := [DirEntry(cfg.rootdir, Toplevel), DirEntry(s, Toplevel), DirEntry(o, Toplevel)];
    LinksFrom(tops, ServiceDirs(s, services), AllSouDirs(s, services, ous, filter), OrgUnitDirs(o, ous),
      AllOuLinks(o, cfg.serviceDir, ous, services, filter), AllSubdirs(o, ous), LinkPaths(o, services, ous, filter), i);
  }

  lemma LinksFrom(
    a: seq<Entry>, b: seq<Entry>, c: seq<Entry>, d: seq<Entry>, e: seq<Entry>, f: seq<Entry>, links: set<string>, i: nat)
    requires OnlyDirs(a) && OnlyDirs(b) && OnlyDirs(c) && OnlyDirs(d) && PathsIn(e, links) && OnlyDirs(f)
    requires i < |a + b + c + d + e + f|
    ensures (a + b + c + d + e + f)[i].LinkEntry? ==> (a + b + c + d + e + f)[i].path in links
  {
    var x := (a + b + c + d + e + f)[i];
    assert x in a || x in b || x in c || x in d || x in e || x in f;
  }

  // Which ACLs are checked

  /** The checker wants the ACL `a` at `p`. */
  ghost predicate Checked(cfg: Config, services: seq<Service>, ous: seq<OrgUnit>, filter: Filter, p: string, a: ACL) {
    || ((p == cfg.rootdir || p == cfg.ServiceRoot() || p == cfg.OrgUnitRoot()) && a == SimpleACL(0, 0, RWX, R_X, R_X))
    || ServiceChecked(cfg.ServiceRoot(), services, p, a)
    || PairChecked(cfg.ServiceRoot(), services, ous, filter, p, a)
    || OuChecked(cfg.OrgUnitRoot(), ous, p, a)
    || SubdirChecked(cfg.OrgUnitRoot(), ous, p, a)
  }

  ghost predicate ServiceChecked(root: string, services: seq<Service>, p: string, a: ACL) {
    exists i :: 0 <= i < |services| && p == root + "/" + services[i].name
      && a == ServiceACL(0, services[i].serviceGroup.gid, services[i].serviceOpsGroup.gid, services[i].superGroup.gid, services[i].access)
  }

  ghost predicate OnePairChecked(root: string, s: Service, ou: OrgUnit, p: string, a: ACL) {
    && p == root + "/" + s.name + "/" + ou.name
    && a == ServiceOrgUnitACL(0, ou.orgUnitGroup.gid, s.serviceOpsGroup.gid, s.serviceGroup.gid, s.superGroup.gid)
  }

  ghost predicate PairChecked(root: string, services: seq<Service>, ous: seq<OrgUnit>, filter: Filter, p: string, a: ACL) {
    exists i, j :: 0 <= i < |services| && 0 <= j < |ous| && filter(services[i], ous[j]) && OnePairChecked(root, services[i], ous[j], p, a)
  }

  ghost predicate OuChecked(root: string, ous: seq<OrgUnit>, p: string, a: ACL) {
    exists j :: 0 <= j < |ous| && p == root + "/" + ous[j].name && a == OrgUnitACL(0, ous[j].orgUnitGroup.gid)
  }

  ghost predicate OneSubdirChecked(root: string, ou: OrgUnit, d: DirWithPolicy, p: string, a: ACL) {
    && p == root + "/" + ou.name + "/" + d.name
    && a == match d.policy
            case GroupPolicy => SubdirGroupACL(0, ou.orgUnitGroup.gid)
            case OwnerPolicy => SubdirOwnerACL(0, ou.orgUnitGroup.gid)
            case ManagerPolicy => SubdirManagerACL(0, ou.orgUnitGroup.gid)
  }

  ghost predicate SubdirChecked(root: string, ous: seq<OrgUnit>, p: string, a: ACL) {
    exists j, k :: 0 <= j < |ous| && 0 <= k < |ous[j].subdirs| && OneSubdirChecked(root, ous[j], ous[j].subdirs[k], p, a)
  }

  lemma InConcat<T>(a: seq<T>, b: seq<T>, x: T)
    ensures x in a + b <==> x in a || x in b
  {
  }

  lemma {:induction false} ServiceDirsAre(root: string, services: seq<Service>, p: string, a: ACL)
    ensures DirEntry(p, a) in ServiceDirs(root, services) <==> ServiceChecked(root, services, p, a)
  {
    if services != [] {
      var n := |services| - 1;
      ServiceDirsAre(root, services[..n], p, a);
      InConcat(ServiceDirs(root, services[..n]), [ServiceEntry(root, services[n])], DirEntry(p, a));
      assert forall i :: 0 <= i < n ==> services[..n][i] == services[i];
    }
  }

  ghost predicate SomePair(root: string, s: Service, ous: seq<OrgUnit>, filter: Filter, p: string, a: ACL) {
    exists j :: 0 <= j < |ous| && filter(s, ous[j]) && OnePairChecked(root, s, ous[j], p, a)
  }

  lemma {:induction false} SouDirsAre(root: string, s: Service, ous: seq<OrgUnit>, filter: Filter, p: string, a: ACL)
    ensures DirEntry(p, a) in SouDirs(root, s, ous, filter) <==> SomePair(root, s, ous, filter, p, a)
  {
    if ous != [] {
      var n := |ous| - 1;
      SouDirsAre(root, s, ous[..n], filter, p, a);
      var more := if filter(s, ous[n]) then [SouEntry(root, s, ous[n])] else [];
      InConcat(SouDirs(root, s, ous[..n], filter), more, DirEntry(p, a));
      assert forall i :: 0 <= i < n ==> ous[..n][i] == ous[i];
      assert DirEntry(p, a) in more <==> filter(s, ous[n]) && OnePairChecked(root, s, ous[n], p, a);
    }
  }

  lemma {:induction false} AllSouDirsAre(root: string, services: seq<Service>, ous: seq<OrgUnit>, filter: Filter, p: string, a: ACL)
    ensures DirEntry(p, a) in AllSouDirs(root, services, ous, filter) <==>
            exists i :: 0 <= i < |services| && SomePair(root, services[i], ous, filter, p, a)
  {
    hide SomePair;
    if services != [] {
      var n := |services| - 1;
      AllSouDirsAre(root, services[..n], ous, filter, p, a);
      SouDirsAre(root, services[n], ous, filter, p, a);
      InConcat(AllSouDirs(root, services[..n], ous, filter), SouDirs(root, services[n], ous, filter), DirEntry(p, a));
      assert forall i :: 0 <= i < n ==> services[..n][i] == services[i];
    }
  }

  lemma PairsAre(root: string, services: seq<Service>, ous: seq<OrgUnit>, filter: Filter, p: string, a: ACL)
    ensures (exists i :: 0 <= i < |services| && SomePair(root, services[i], ous, filter, p, a)) <==>
            PairChecked(root, services, ous, filter, p, a)
  {
    hide OnePairChecked;
  }

  lemma {:induction false} OrgUnitDirsAre(root: string, ous: seq<OrgUnit>, p: string, a: ACL)
    ensures DirEntry(p, a) in OrgUnitDirs(root, ous) <==> OuChecked(root, ous, p, a)
  {
    if ous != [] {
      var n := |ous| - 1;
      OrgUnitDirsAre(root, ous[..n], p, a);
      InConcat(OrgUnitDirs(root, ous[..n]), [OrgUnitEntry(root, ous[n])], DirEntry(p, a));
      assert forall i :: 0 <= i < n ==> ous[..n][i] == ous[i];
    }
  }

  ghost predicate SomeSubdir(root: string, ou: OrgUnit, subdirs: seq<DirWithPolicy>, p: string, a: ACL) {
    exists k :: 0 <= k < |subdirs| && OneSubdirChecked(root, ou, subdirs[k], p, a)
  }

  lemma {:induction false} OuSubdirsAre(root: string, ou: OrgUnit, subdirs: seq<DirWithPolicy>, p: string, a: ACL)
    ensures DirEntry(p, a) in OuSubdirs(root, ou, subdirs) <==> SomeSubdir(root, ou, subdirs, p, a)
  {
    if subdirs != [] {
      var n := |subdirs| - 1;
      OuSubdirsAre(root, ou, subdirs[..n], p, a);
      InConcat(OuSubdirs(root, ou, subdirs[..n]), [SubdirEntry(root, ou, subdirs[n])], DirEntry(p, a));
      assert forall i :: 0 <= i < n ==> subdirs[..n][i] == subdirs[i];
      assert DirEntry(p, a) == SubdirEntry(root, ou, subdirs[n]) <==> OneSubdirChecked(root, ou, subdirs[n], p, a);
    }
  }

  lemma {:induction false} AllSubdirsAre(root: string, ous: seq<OrgUnit>, p: string, a: ACL)
    ensures DirEntry(p, a) in AllSubdirs(root, ous) <==>
            exists j :: 0 <= j < |ous| && SomeSubdir(root, ous[j], ous[j].subdirs, p, a)
  {
    hide SomeSubdir;
    if ous != [] {
      var n := |ous| - 1;
      AllSubdirsAre(root, ous[..n], p, a);
      OuSubdirsAre(root, ous[n], ous[n].subdirs, p, a);
      InConcat(AllSubdirs(root, ous[..n]), OuSubdirs(root, ous[n], ous[n].subdirs), DirEntry(p, a));
      assert forall i :: 0 <= i < n ==> ous[..n][i] == ous[i];
    }
  }

  lemma SubdirsAre(root: string, ous: seq<OrgUnit>, p: string, a: ACL)
    ensures (exists j :: 0 <= j < |ous| && SomeSubdir(root, ous[j], ous[j].subdirs, p, a)) <==> SubdirChecked(root, ous, p, a)
  {
    hide OneSubdirChecked;
  }

  lemma {:induction false} NoDirAmongLinks(root: string, serviceDir: string, ou: OrgUnit, services: seq<Service>, filter: Filter, p: string, a: ACL)
    ensures DirEntry(p, a) !in OuLinks(root, serviceDir, ou, services, filter)
  {
    if services != [] { NoDirAmongLinks(root, serviceDir, ou, services[..|services| - 1], filter, p, a); }
  }

  lemma {:induction false} NoDirAmongAllLinks(
    root: string, serviceDir: string, ous: seq<OrgUnit>, services: seq<Service>, filter: Filter, p: string, a: ACL)
    ensures DirEntry(p, a) !in AllOuLinks(root, serviceDir, ous, services, filter)
  {
    hide OuLinks;
    if ous != [] {
      NoDirAmongAllLinks(root, serviceDir, ous[..|ous| - 1], services, filter, p, a);
      NoDirAmongLinks(root, serviceDir, ous[|ous| - 1], services, filter, p, a);
    }
  }

  lemma InSix<T>(a: seq<T>, b: seq<T>, c: seq<T>, d: seq<T>, e: seq<T>, f: seq<T>, x: T)
    ensures x in a + b + c + d + e + f <==> x in a || x in b || x in c || x in d || x in e || x in f
  {
    InConcat(a, b, x);
    InConcat(a + b, c, x);
    InConcat(a + b + c, d, x);
    InConcat(a + b + c + d, e, x);
    InConcat(a + b + c + d + e, f, x);
  }

  lemma EntriesAre(cfg: Config, services: seq<Service>, ous: seq<OrgUnit>, filter: Filter, p: string, a: ACL)
    ensures DirEntry(p, a) in FsCheck.Entries(cfg, services, ous, filter) <==> Checked(cfg, services, ous, filter, p, a)
  {
    hide ServiceDirs, AllSouDirs, OrgUnitDirs, AllOuLinks, AllSubdirs, ServiceChecked, PairChecked, OuChecked, SubdirChecked, SomePair, SomeSubdir;
    var sr, or := cfg.ServiceRoot(), cfg.OrgUnitRoot();
    ServiceDirsAre(sr, services, p, a);
    AllSouDirsAre(sr, services, ous, filter, p, a);
    PairsAre(sr, services, ous, filter, p, a);
    OrgUnitDirsAre(or, ous, p, a);
    NoDirAmongAllLinks(or, cfg.serviceDir, ous, services, filter, p, a);
    AllSubdirsAre(or, ous, p, a);
    SubdirsAre(or, ous, p, a);
    InSix([DirEntry(cfg.rootdir, Toplevel), DirEntry(cfg.ServiceRoot(), Toplevel), DirEntry(cfg.OrgUnitRoot(), Toplevel)],
      ServiceDirs(sr, services), AllSouDirs(sr, services, ous, filter), OrgUnitDirs(or, ous),
      AllOuLinks(or, cfg.serviceDir, ous, services, filter), AllSubdirs(or, ous), DirEntry(p, a));
  }

  /** The path leads to something whose ACL is as wanted. */
  ghost predicate AclRight(t: Tree, p: string, a: ACL) {
    var d := Resolve(t.nodes, p);
    d.Some? && d.value in t.nodes && AsWanted(AclAt(t.acls, d.value), a)
  }

  ghost predicate Sound(t: Tree, cfg: Config, services: seq<Service>, ous: seq<OrgUnit>, filter: Filter) {
    && (forall q :: AclAt(t.acls, q).Valid())
    && forall p, a :: Checked(cfg, services, ous, filter, p, a) ==> a.Valid() && RolesDiffer(a) && '\n' !in p
  }

  /** The check of the ACLs passes if and only if every directory that it is about has the ACL
      that is wanted there. */
  lemma AclsMean(t: Tree, cfg: Config, services: seq<Service>, ous: seq<OrgUnit>, filter: Filter)
    requires Sound(t, cfg, services, ous, filter) && ValidEntries(FsCheck.Entries(cfg, services, ous, filter))
    ensures AclsPass(t, FsCheck.Entries(cfg, services, ous, filter)) <==>
            forall p, a :: Checked(cfg, services, ous, filter, p, a) ==> AclRight(t, p, a)
  {
    hide FsCheck.Entries, Checked, AclRight, EntryAclPasses;
    var entries := FsCheck.Entries(cfg, services, ous, filter);
    if AclsPass(t, entries) {
      forall p, a | Checked(cfg, services, ous, filter, p, a) ensures AclRight(t, p, a) {
        EntriesAre(cfg, services, ous, filter, p, a);
        var i :| 0 <= i < |entries| && entries[i] == DirEntry(p, a);
        OneAclMeans(t, p, a);
      }
    }
    if forall p, a :: Checked(cfg, services, ous, filter, p, a) ==> AclRight(t, p, a) {
      forall i | 0 <= i < |entries| ensures EntryAclPasses(t, entries[i]) {
        EntryPasses(t, cfg, services, ous, filter, entries[i]);
      }
    }
  }

  lemma EntryPasses(t: Tree, cfg: Config, services: seq<Service>, ous: seq<OrgUnit>, filter: Filter, e: Entry)
    requires Sound(t, cfg, services, ous, filter) && e in FsCheck.Entries(cfg, services, ous, filter)
    requires forall p, a :: Checked(cfg, services, ous, filter, p, a) ==> AclRight(t, p, a)
    ensures e.DirEntry? ==> e.acl.Valid()
    ensures EntryAclPasses(t, e)
  {
    hide FsCheck.Entries, Checked, AclRight, AclPasses;
    if e.DirEntry? {
      EntriesAre(cfg, services, ous, filter, e.path, e.acl);
      OneAclMeans(t, e.path, e.acl);
    }
  }

  lemma OneAclMeans(t: Tree, p: string, a: ACL)
    requires (forall q :: AclAt(t.acls, q).Valid()) && a.Valid() && RolesDiffer(a) && '\n' !in p
    ensures EntryAclPasses(t, DirEntry(p, a)) <==> AclRight(t, p, a)
  {
    hide AclPasses, AsWanted, Resolve, RolesDiffer;
    var d := Resolve(t.nodes, p);
    if d.Some? && d.value in t.nodes { PassesMean(p, AclAt(t.acls, d.value), a); }
  }

  // Which links are checked

  /** At the path is a link whose target has these components. */
  ghost predicate LinkAt(nodes: Nodes, path: string, parts: seq<string>) {
    var p := Locate(nodes, path);
    p.Some? && p.value in nodes && nodes[p.value].Link? && Parts(nodes[p.value].target) == parts
  }

  /** The link leads to the top of a service that the org unit operates, else to its part. */
  ghost predicate ServiceLinkRight(nodes: Nodes, cfg: Config, ou: OrgUnit, s: Service) {
    LinkAt(nodes, cfg.OrgUnitRoot() + "/" + ou.name + "/" + s.name,
           if ou.isFacility && s.facility == ou.facility then ["..", "..", cfg.serviceDir, s.name]
           else ["..", "..", cfg.serviceDir, s.name, ou.name])
  }

  lemma OneLinkMeans(nodes: Nodes, cfg: Config, ou: OrgUnit, s: Service)
    requires cfg.Valid() && CleanName(ou.name) && CleanName(s.name)
    ensures IsDestSymlink(nodes, LinkDest(cfg.serviceDir, ou, s), cfg.OrgUnitRoot() + "/" + ou.name + "/" + s.name) <==>
            ServiceLinkRight(nodes, cfg, ou, s)
  {
    hide Split, Join, LinkDest, Locate;
    var dest, top := LinkDest(cfg.serviceDir, ou, s), ["..", "..", cfg.serviceDir, s.name];
    LinkDestParts(cfg.serviceDir, ou, s);
    assert Ups(2) == ["..", ".."];
    assert Parts(dest) == if Operates(ou, s) then top else top + [ou.name];
    var p := Locate(nodes, cfg.OrgUnitRoot() + "/" + ou.name + "/" + s.name);
    if p.Some? && p.value in nodes && nodes[p.value].Link? && Parts(nodes[p.value].target) == Parts(dest) {
      SplitInjective(nodes[p.value].target, dest, '/');
    }
  }

  /** The check of the service links passes if and only if every org unit has the right link for
      each of its services. */
  lemma LinksMean(nodes: Nodes, cfg: Config, services: seq<Service>, ous: seq<OrgUnit>, filter: Filter)
    requires cfg.Valid() && CleanOrg(services, ous)
    ensures LinksPass(nodes, FsCheck.Entries(cfg, services, ous, filter)) <==>
            forall i, j :: 0 <= i < |services| && 0 <= j < |ous| && filter(services[i], ous[j]) ==>
              ServiceLinkRight(nodes, cfg, ous[j], services[i])
  {
    hide LinksPass, FsCheck.Entries, AllOuLinks, IsDestSymlink, LinkDest, ServiceLinkRight, Config.OrgUnitRoot;
    EntryLinksPass(nodes, cfg, services, ous, filter);
    AllOuLinksPassIff(nodes, cfg.OrgUnitRoot(), cfg.serviceDir, ous, services, filter);
    forall i, j | 0 <= i < |services| && 0 <= j < |ous|
      ensures IsDestSymlink(nodes, LinkDest(cfg.serviceDir, ous[j], services[i]), cfg.OrgUnitRoot() + "/" + ous[j].name + "/" + services[i].name)
              <==> ServiceLinkRight(nodes, cfg, ous[j], services[i])
    {
      OneLinkMeans(nodes, cfg, ous[j], services[i]);
    }
  }

  ghost predicate LastExplicit(links: seq<ExplicitLink>, l: nat) {
    l < |links| && forall m :: l < m < |links| ==> links[m].path != links[l].path
  }

  lemma {:induction false} ExplicitMapHas(root: string, links: seq<ExplicitLink>, p: string)
    ensures p in ExplicitMap(root, links) <==> exists l :: 0 <= l < |links| && p == root + "/" + links[l].path
  {
    if links != [] {
      var n := |links| - 1;
      ExplicitMapHas(root, links[..n], p);
      assert forall l :: 0 <= l < n ==> links[..n][l] == links[l];
    }
  }

  /** The configured links by path: the last one counts. */
  lemma {:induction false} ExplicitMapAt(root: string, links: seq<ExplicitLink>, l: nat)
    requires LastExplicit(links, l)
    ensures root + "/" + links[l].path in ExplicitMap(root, links)
    ensures ExplicitMap(root, links)[root + "/" + links[l].path] == links[l].target
  {
    var n := |links| - 1;
    if l < n {
      ExplicitMapAt(root, links[..n], l);
      SameName(root, links[n].path, links[l].path);
    }
  }

  lemma {:induction false} SomeLastExplicit(links: seq<ExplicitLink>, l: nat) returns (m: nat)
    requires l < |links|
    ensures LastExplicit(links, m) && links[m].path == links[l].path
    decreases |links| - l
  {
    if k :| l < k < |links| && links[k].path == links[l].path { m := SomeLastExplicit(links, k); } else { m := l; }
  }

  /** The check of the explicit links passes if and only if every configured link that no later
      one replaces is in place. */
  lemma ExplicitMeans(nodes: Nodes, root: string, links: seq<ExplicitLink>)
    ensures ExplicitPass(nodes, ExplicitMap(root, links)) <==>
            forall l: nat :: LastExplicit(links, l) ==> IsDestSymlink(nodes, links[l].target, root + "/" + links[l].path)
  {
    hide IsDestSymlink, ExplicitMap;
    var m := ExplicitMap(root, links);
    if ExplicitPass(nodes, m) {
      forall l: nat | LastExplicit(links, l) ensures IsDestSymlink(nodes, links[l].target, root + "/" + links[l].path) {
        ExplicitMapAt(root, links, l);
      }
    }
    if forall l: nat :: LastExplicit(links, l) ==> IsDestSymlink(nodes, links[l].target, root + "/" + links[l].path) {
      forall p | p in m ensures IsDestSymlink(nodes, m[p], p) {
        ExplicitMapHas(root, links, p);
        var l :| 0 <= l < |links| && p == root + "/" + links[l].path;
        var k := SomeLastExplicit(links, l);
        ExplicitMapAt(root, links, k);
      }
    }
  }
}
