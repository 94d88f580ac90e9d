/** An apply run below an empty root directory: nothing but the expected paths appears,
    and all four structure checks pass. */
module FreshApply {
  import opened Strings
  import opened Paths
  import opened Sharing
  import opened FileSystem
  import opened PosixAcl
  import opened DirScripts
  import opened Organization
  import opened FsApply
  import opened ApplySteps
  import opened FsCheck
  import opened ApplySymlinks
  import opened ApplyLinks

  // The expected paths

  function ServicePaths(root: string, services: seq<Service>): set<string> {
    set i | 0 <= i < |services| :: root + "/" + services[i].name
  }

  function SouPaths(root: string, services: seq<Service>, ous: seq<OrgUnit>, filter: Filter): set<string> {
    set i, j | 0 <= i < |services| && 0 <= j < |ous| && filter(services[i], ous[j]) ::
      root + "/" + services[i].name + "/" + ous[j].name
  }

  function OuPaths(root: string, ous: seq<OrgUnit>): set<string> {
    set i | 0 <= i < |ous| :: root + "/" + ous[i].name
  }

  function LinkPaths(root: string, services: seq<Service>, ous: seq<OrgUnit>, filter: Filter): set<string> {
    set i, j | 0 <= i < |services| && 0 <= j < |ous| && filter(services[i], ous[j]) ::
      root + "/" + ous[j].name + "/" + services[i].name
  }

  function SubdirPaths(root: string, ous: seq<OrgUnit>): set<string> {
    set i, j | 0 <= i < |ous| && 0 <= j < |ous[i].subdirs| :: root + "/" + ous[i].name + "/" + ous[i].subdirs[j].name
  }

  function DirPaths(cfg: Config, services: seq<Service>, ous: seq<OrgUnit>, filter: Filter): set<string> {
    {cfg.ServiceRoot(), cfg.OrgUnitRoot()} +
    ServicePaths(cfg.ServiceRoot(), services) + SouPaths(cfg.ServiceRoot(), services, ous, filter) +
    OuPaths(cfg.OrgUnitRoot(), ous) + SubdirPaths(cfg.OrgUnitRoot(), ous)
  }

  function ExplicitPaths(root: string, links: seq<ExplicitLink>): set<string> {
    set i | 0 <= i < |links| :: root + "/" + links[i].path
  }

  // Trees that hold nothing else

  /** Below the root, there are only directories of `dirs` and links of `links`. */
  ghost predicate Inside(nodes: Nodes, root: string, dirs: set<string>, links: set<string>) {
    && WellFormed(nodes) && IsDir(nodes, root)
    && forall q :: q in nodes && Below(q, root) ==> (nodes[q] == Dir && q in dirs) || (nodes[q].Link? && q in links)
  }

  /** `p` is a clean path below the root and under no link of `links`. */
  ghost predicate Plain(root: string, links: set<string>, p: string) {
    KeyPath(p) && Below(p, root) && forall q :: q in links ==> !Below(p, q)
  }

  lemma NotEmpty(p: string, root: string)
    requires Below(p, root)
    ensures p != ""
  {
  }

  lemma PlainParent(nodes: Nodes, root: string, dirs: set<string>, links: set<string>, p: string)
    requires Inside(nodes, root, dirs, links) && Plain(root, links, p)
    ensures ChildOf(p, Parent(p)) && KeyPath(Parent(p)) && NoLinks(nodes, Parent(p))
    ensures Parent(p) == root || Below(Parent(p), root)
  {
    hide WellFormed, Split;
    NotEmpty(p, root);
    KeyParent(p);
    var d := Parent(p);
    BelowParent(p, d, root);
    forall q | q in nodes && (q == d || Below(d, q)) ensures !nodes[q].Link? {
      if q != d { BelowTransitive(p, d, q); }
      if Below(q, root) {
        assert q !in links;
      } else if q != root {
        AboveRoot(nodes, root, d, q);
      }
    }
  }

  /** What is above a path below the root, but not below the root, is above the root. */
  lemma AboveRoot(nodes: Nodes, root: string, d: string, q: string)
    requires WellFormed(nodes) && IsDir(nodes, root) && q in nodes && q != root && !Below(q, root)
    requires (d == root || Below(d, root)) && (q == d || Below(d, q))
    ensures nodes[q] == Dir
  {
    if d != root { AncestorsComparable(q, root, d); }
    AncestorsAreDirs(nodes, root, q);
  }

  lemma ScriptInside(t: Tree, root: string, dirs: set<string>, links: set<string>, p: string, s: DirScript)
    requires Inside(t.nodes, root, dirs, links) && Plain(root, links, p) && p in dirs
    ensures var r := RunScript(t, p, s);
            && Inside(r.nodes, root, dirs, links) && Grows(t.nodes, r.nodes)
            && (!r.err ==> !t.err && p in r.nodes && (p !in links ==> IsDir(r.nodes, p)))
  {
    hide WellFormed, RunScript, NoLinks, Plain;
    ScriptErr(t, p, s);
    if !t.err {
      PlainParent(t.nodes, root, dirs, links, p);
      var d := Parent(p);
      ChildSplit(p, d);
      ScriptPlain(t, d, p[|d| + 1..], s);
      AtRoot(t.nodes, root, d);
    }
  }

  lemma AtRoot(nodes: Nodes, root: string, d: string)
    requires IsDir(nodes, root)
    ensures d == root ==> IsDir(nodes, d)
  {
  }

  lemma {:induction false} JobsInside(t: Tree, root: string, dirs: set<string>, links: set<string>, jobs: seq<DirJob>)
    requires Inside(t.nodes, root, dirs, links)
    requires forall i :: 0 <= i < |jobs| ==> jobs[i].path in dirs && Plain(root, links, jobs[i].path)
    ensures Inside(RunJobs(t, jobs).nodes, root, dirs, links) && Grows(t.nodes, RunJobs(t, jobs).nodes)
    ensures !RunJobs(t, jobs).err ==> !t.err
  {
    hide RunScript, Inside, Plain;
    if jobs != [] {
      var n := |jobs| - 1;
      JobsInside(t, root, dirs, links, jobs[..n]);
      ScriptInside(RunJobs(t, jobs[..n]), root, dirs, links, jobs[n].path, jobs[n].script);
    }
  }

  lemma LinkInside(t: Tree, root: string, dirs: set<string>, links: set<string>, p: string, dest: string)
    requires Inside(t.nodes, root, dirs, links) && Plain(root, links, p) && p in links
    ensures Inside(MakeLink(t, dest, p).nodes, root, dirs, links) && Grows(t.nodes, MakeLink(t, dest, p).nodes)
    ensures !MakeLink(t, dest, p).err ==> !t.err
  {
    hide WellFormed, NoLinks, Plain, Resolve, Locate;
    PlainParent(t.nodes, root, dirs, links, p);
    var d := Parent(p);
    ChildSplit(p, d);
    LocatePlain(t.nodes, d, p[|d| + 1..]);
    StepWellFormedIf(t.nodes, SymlinkOp(dest, p));
  }

  lemma {:induction false} LinkJobsInside(t: Tree, root: string, dirs: set<string>, links: set<string>, jobs: seq<LinkJob>)
    requires Inside(t.nodes, root, dirs, links)
    requires forall i :: 0 <= i < |jobs| ==> jobs[i].path in links && Plain(root, links, jobs[i].path)
    ensures Inside(RunLinkJobs(t, jobs).nodes, root, dirs, links) && Grows(t.nodes, RunLinkJobs(t, jobs).nodes)
    ensures !RunLinkJobs(t, jobs).err ==> !t.err
  {
    hide MakeLink, Inside, Plain;
    if jobs != [] {
      var n := |jobs| - 1;
      LinkJobsInside(t, root, dirs, links, jobs[..n]);
      LinkInside(RunLinkJobs(t, jobs[..n]), root, dirs, links, jobs[n].path, jobs[n].dest);
    }
  }

  /** All directories above depth three stay. */
  ghost predicate KeepsTop(n0: Nodes, n1: Nodes, root: string) {
    forall q :: q in n0 && |Parts(q)| <= |Parts(root)| + 2 ==> q in n1 && n1[q] == n0[q]
  }

  lemma CleanUpInside(
    t: Tree, root: string, dirs: set<string>, links: set<string>, dir: string, expected: set<string>, onlyLinks: bool)
    requires Inside(t.nodes, root, dirs, links) && Plain(root, links, dir) && dir !in links
    requires |Parts(dir)| == |Parts(root)| + 2
    ensures var r := RmUnexpected(t, dir, expected, onlyLinks);
            Inside(r.nodes, root, dirs, links) && KeepsTop(t.nodes, r.nodes, root) && (!r.err ==> !t.err)
  {
    hide WellFormed, NoLinks, Resolve, Unexpected, RmUnexpected;
    var r := RmUnexpected(t, dir, expected, onlyLinks);
    RmUnexpectedSpec(t, dir, expected, onlyLinks);
    PlainNoLinks(t.nodes, root, dirs, links, dir);
    ResolvePlain(t.nodes, dir);
    if dir in t.nodes {
      forall q | q in t.nodes && q !in r.nodes ensures |Parts(q)| == |Parts(root)| + 3 {
        ChildSplit(q, dir);
        KeyChild(dir, q[|dir| + 1..]);
      }
    }
  }

  lemma PlainNoLinks(nodes: Nodes, root: string, dirs: set<string>, links: set<string>, p: string)
    requires Inside(nodes, root, dirs, links) && Plain(root, links, p) && p !in links
    ensures NoLinks(nodes, p)
  {
    hide WellFormed;
    PlainParent(nodes, root, dirs, links, p);
    forall q | q in nodes && (q == p || Below(p, q)) ensures !nodes[q].Link? {
      if q != p { BelowParent(p, Parent(p), q); }
    }
  }

  // The expected paths are plain

  lemma TwoDown(root: string, a: string, b: string)
    requires KeyPath(root) && CleanName(a) && CleanName(b)
    ensures KeyPath(root + "/" + a) && Parts(root + "/" + a) == Parts(root) + [a]
    ensures KeyPath(root + "/" + a + "/" + b) && Parts(root + "/" + a + "/" + b) == Parts(root) + [a, b]
    ensures Below(root + "/" + a, root) && Below(root + "/" + a + "/" + b, root)
  {
    KeyChild(root, a);
    KeyChild(root + "/" + a, b);
    MakeChild(root, a);
    MakeChild(root + "/" + a, b);
    assert Parts(root) + [a] + [b] == Parts(root) + [a, b];
    BelowTransitive(root + "/" + a + "/" + b, root + "/" + a, root);
  }

  lemma ShallowPlain(root: string, links: set<string>, p: string)
    requires KeyPath(p) && Below(p, root) && |Parts(p)| <= |Parts(root)| + 3
    requires forall q :: q in links ==> |Parts(q)| >= |Parts(root)| + 3
    ensures Plain(root, links, p)
  {
    forall q | q in links ensures !Below(p, q) {
      BelowIffParts(p, q);
    }
  }

  lemma LinkPathsDeep(cfg: Config, services: seq<Service>, ous: seq<OrgUnit>, filter: Filter)
    requires cfg.Valid() && CleanOrg(services, ous)
    ensures forall q :: q in LinkPaths(cfg.OrgUnitRoot(), services, ous, filter) ==>
              KeyPath(q) && Below(q, cfg.rootdir) && |Parts(q)| == |Parts(cfg.rootdir)| + 3
  {
    hide Split, KeyPath;
    AbsIsKey(cfg.rootdir);
    KeyChild(cfg.rootdir, cfg.orgUnitDir);
    MakeChild(cfg.rootdir, cfg.orgUnitDir);
    var root := cfg.OrgUnitRoot();
    forall q | q in LinkPaths(root, services, ous, filter)
      ensures KeyPath(q) && Below(q, cfg.rootdir) && |Parts(q)| == |Parts(cfg.rootdir)| + 3
    {
      var i, j :| 0 <= i < |services| && 0 <= j < |ous| && filter(services[i], ous[j]) &&
        q == root + "/" + ous[j].name + "/" + services[i].name;
      TwoDown(root, ous[j].name, services[i].name);
      BelowTransitive(q, root, cfg.rootdir);
    }
  }

  lemma OneDeep(top: string, d: string, n: string)
    requires KeyPath(top) && CleanName(d) && CleanName(n)
    ensures var p := top + "/" + d + "/" + n;
            KeyPath(p) && Below(p, top) && |Parts(p)| == |Parts(top)| + 2
  {
    TwoDown(top, d, n);
  }

  lemma TwoDeep(top: string, d: string, a: string, b: string)
    requires KeyPath(top) && CleanName(d) && CleanName(a) && CleanName(b)
    ensures var p := top + "/" + d + "/" + a + "/" + b;
            KeyPath(p) && Below(p, top) && |Parts(p)| == |Parts(top)| + 3
  {
    KeyChild(top, d);
    MakeChild(top, d);
    TwoDown(top + "/" + d, a, b);
    BelowTransitive(top + "/" + d + "/" + a + "/" + b, top + "/" + d, top);
  }

  lemma DirPathsPlain(cfg: Config, services: seq<Service>, ous: seq<OrgUnit>, filter: Filter)
    requires cfg.Valid() && CleanOrg(services, ous)
    ensures forall p :: p in DirPaths(cfg, services, ous, filter) ==>
              Plain(cfg.rootdir, LinkPaths(cfg.OrgUnitRoot(), services, ous, filter), p)
  {
    hide Split, KeyPath, Plain, LinkPaths;
    AbsIsKey(cfg.rootdir);
    var links := LinkPaths(cfg.OrgUnitRoot(), services, ous, filter);
    LinkPathsDeep(cfg, services, ous, filter);
    forall p | p in DirPaths(cfg, services, ous, filter) ensures Plain(cfg.rootdir, links, p) {
      DirPathShallow(cfg, services, ous, filter, p);
      ShallowPlain(cfg.rootdir, links, p);
    }
  }

  lemma DirPathShallow(cfg: Config, services: seq<Service>, ous: seq<OrgUnit>, filter: Filter, p: string)
    requires cfg.Valid() && CleanOrg(services, ous) && p in DirPaths(cfg, services, ous, filter)
    ensures KeyPath(p) && Below(p, cfg.rootdir) && |Parts(p)| <= |Parts(cfg.rootdir)| + 3
  {
    hide Split, KeyPath;
    AbsIsKey(cfg.rootdir);
    var s, o := cfg.ServiceRoot(), cfg.OrgUnitRoot();
    KeyChild(cfg.rootdir, cfg.serviceDir);
    KeyChild(cfg.rootdir, cfg.orgUnitDir);
    MakeChild(cfg.rootdir, cfg.serviceDir);
    MakeChild(cfg.rootdir, cfg.orgUnitDir);
    if p in ServicePaths(s, services) {
      var i :| 0 <= i < |services| && p == s + "/" + services[i].name;
      OneDeep(cfg.rootdir, cfg.serviceDir, services[i].name);
    } else if p in OuPaths(o, ous) {
      var i :| 0 <= i < |ous| && p == o + "/" + ous[i].name;
      OneDeep(cfg.rootdir, cfg.orgUnitDir, ous[i].name);
    } else if p in SouPaths(s, services, ous, filter) {
      var i, j :| 0 <= i < |services| && 0 <= j < |ous| && p == s + "/" + services[i].name + "/" + ous[j].name;
      TwoDeep(cfg.rootdir, cfg.serviceDir, services[i].name, ous[j].name);
    } else if p in SubdirPaths(o, ous) {
      var i, j :| 0 <= i < |ous| && 0 <= j < |ous[i].subdirs| && p == o + "/" + ous[i].name + "/" + ous[i].subdirs[j].name;
      TwoDeep(cfg.rootdir, cfg.orgUnitDir, ous[i].name, ous[i].subdirs[j].name);
    }
  }

  // The jobs are for expected paths

  ghost predicate JobsIn(jobs: seq<DirJob>, dirs: set<string>) {
    forall i :: 0 <= i < |jobs| ==> jobs[i].path in dirs
  }

  ghost predicate LinkJobsIn(jobs: seq<LinkJob>, links: set<string>) {
    forall i :: 0 <= i < |jobs| ==> jobs[i].path in links
  }

  lemma {:induction false} ServiceJobsIn(root: string, services: seq<Service>, dirs: set<string>)
    requires forall i :: 0 <= i < |services| ==> root + "/" + services[i].name in dirs
    ensures JobsIn(ServiceJobs(root, services), dirs)
  {
    if services != [] { ServiceJobsIn(root, services[..|services| - 1], dirs); }
  }

  lemma {:induction false} SouJobsIn(root: string, s: Service, ous: seq<OrgUnit>, filter: Filter, dirs: set<string>)
    requires forall j :: 0 <= j < |ous| && filter(s, ous[j]) ==> root + "/" + s.name + "/" + ous[j].name in dirs
    ensures JobsIn(SouJobs(root, s, ous, filter), dirs)
  {
    if ous != [] {
      var n := |ous| - 1;
      assert forall j :: 0 <= j < n ==> ous[..n][j] == ous[j];
      SouJobsIn(root, s, ous[..n], filter, dirs);
    }
  }

  lemma {:induction false} OrgUnitJobsIn(root: string, ous: seq<OrgUnit>, dirs: set<string>)
    requires forall i :: 0 <= i < |ous| ==> root + "/" + ous[i].name in dirs
    ensures JobsIn(OrgUnitJobs(root, ous), dirs)
  {
    if ous != [] { OrgUnitJobsIn(root, ous[..|ous| - 1], dirs); }
  }

  lemma {:induction false} OuLinkJobsIn(
    root: string, serviceDir: string, ou: OrgUnit, services: seq<Service>, filter: Filter, links: set<string>)
    requires forall i :: 0 <= i < |services| && filter(services[i], ou) ==> root + "/" + ou.name + "/" + services[i].name in links
    ensures LinkJobsIn(OuLinkJobs(root, serviceDir, ou, services, filter), links)
  {
    hide Join;
    if services != [] {
      var n := |services| - 1;
      assert forall i :: 0 <= i < n ==> services[..n][i] == services[i];
      OuLinkJobsIn(root, serviceDir, ou, services[..n], filter, links);
    }
  }

  lemma {:induction false} OuSubdirJobsIn(root: string, ou: OrgUnit, subdirs: seq<DirWithPolicy>, dirs: set<string>)
    requires forall j :: 0 <= j < |subdirs| ==> root + "/" + ou.name + "/" + subdirs[j].name in dirs
    ensures JobsIn(OuSubdirJobs(root, ou, subdirs), dirs)
  {
    if subdirs != [] { OuSubdirJobsIn(root, ou, subdirs[..|subdirs| - 1], dirs); }
  }

  lemma {:induction false} SubdirJobsIn(root: string, ous: seq<OrgUnit>, dirs: set<string>)
    requires forall i, j :: 0 <= i < |ous| && 0 <= j < |ous[i].subdirs| ==> root + "/" + ous[i].name + "/" + ous[i].subdirs[j].name in dirs
    ensures JobsIn(SubdirJobs(root, ous), dirs)
  {
    if ous != [] {
      var n := |ous| - 1;
      assert forall i :: 0 <= i < n ==> ous[..n][i] == ous[i];
      SubdirJobsIn(root, ous[..n], dirs);
      OuSubdirJobsIn(root, ous[n], ous[n].subdirs, dirs);
    }
  }

  // The stages

  lemma {:induction false} ServicesInside(
    t: Tree, cfg: Config, dirs: set<string>, links: set<string>, services: seq<Service>, ous: seq<OrgUnit>, filter: Filter)
    requires cfg.Valid() && Inside(t.nodes, cfg.rootdir, dirs, links)
    requires forall p :: p in dirs ==> Plain(cfg.rootdir, links, p)
    requires forall q :: q in links ==> |Parts(q)| == |Parts(cfg.rootdir)| + 3
    requires forall i :: 0 <= i < |services| ==> CleanName(services[i].name)
    requires SouPaths(cfg.ServiceRoot(), services, ous, filter) <= dirs
    ensures var r := ServiceOrgUnitDirs(t, cfg.ServiceRoot(), services, ous, filter);
            Inside(r.nodes, cfg.rootdir, dirs, links) && KeepsTop(t.nodes, r.nodes, cfg.rootdir) && (!r.err ==> !t.err)
  {
    hide Inside, Plain, Split, RunJobs, RmUnexpected;
    if services != [] {
      var n := |services| - 1;
      var s := services[n];
      FewerServices(cfg.ServiceRoot(), services, ous, filter);
      ServicesInside(t, cfg, dirs, links, services[..n], ous, filter);
      var mid := ServiceOrgUnitDirs(t, cfg.ServiceRoot(), services[..n], ous, filter);
      SouJobsIn(cfg.ServiceRoot(), s, ous, filter, dirs);
      JobsInside(mid, cfg.rootdir, dirs, links, SouJobs(cfg.ServiceRoot(), s, ous, filter));
      AbsIsKey(cfg.rootdir);
      OneDeep(cfg.rootdir, cfg.serviceDir, s.name);
      var dir := cfg.ServiceRoot() + "/" + s.name;
      ShallowPlain(cfg.rootdir, links, dir);
      CleanUpInside(RunJobs(mid, SouJobs(cfg.ServiceRoot(), s, ous, filter)), cfg.rootdir, dirs, links, dir,
        AcceptedOus(s, ous, filter), false);
    }
  }

  lemma FewerServices(root: string, services: seq<Service>, ous: seq<OrgUnit>, filter: Filter)
    requires services != []
    ensures SouPaths(root, services[..|services| - 1], ous, filter) <= SouPaths(root, services, ous, filter)
    ensures forall j :: 0 <= j < |ous| && filter(services[|services| - 1], ous[j]) ==>
              root + "/" + services[|services| - 1].name + "/" + ous[j].name in SouPaths(root, services, ous, filter)
  {
  }

  lemma {:induction false} OusInside(
    t: Tree, cfg: Config, dirs: set<string>, links: set<string>, services: seq<Service>, ous: seq<OrgUnit>, filter: Filter)
    requires cfg.Valid() && Inside(t.nodes, cfg.rootdir, dirs, links)
    requires forall q :: q in links ==> |Parts(q)| == |Parts(cfg.rootdir)| + 3 && Plain(cfg.rootdir, links, q)
    requires forall i :: 0 <= i < |ous| ==> CleanName(ous[i].name)
    requires LinkPaths(cfg.OrgUnitRoot(), services, ous, filter) <= links
    ensures var r := OrgUnitServiceLinks(t, cfg.OrgUnitRoot(), cfg.serviceDir, ous, services, filter);
            Inside(r.nodes, cfg.rootdir, dirs, links) && KeepsTop(t.nodes, r.nodes, cfg.rootdir) && (!r.err ==> !t.err)
  {
    hide Inside, Plain, Split, RunLinkJobs, RmUnexpected;
    if ous != [] {
      var n := |ous| - 1;
      var ou := ous[n];
      FewerOus(cfg.OrgUnitRoot(), services, ous, filter);
      OusInside(t, cfg, dirs, links, services, ous[..n], filter);
      var mid := OrgUnitServiceLinks(t, cfg.OrgUnitRoot(), cfg.serviceDir, ous[..n], services, filter);
      OuLinkJobsIn(cfg.OrgUnitRoot(), cfg.serviceDir, ou, services, filter, links);
      var jobs := OuLinkJobs(cfg.OrgUnitRoot(), cfg.serviceDir, ou, services, filter);
      LinkJobsInside(mid, cfg.rootdir, dirs, links, jobs);
      AbsIsKey(cfg.rootdir);
      OneDeep(cfg.rootdir, cfg.orgUnitDir, ou.name);
      var dir := cfg.OrgUnitRoot() + "/" + ou.name;
      ShallowPlain(cfg.rootdir, links, dir);
      CleanUpInside(RunLinkJobs(mid, jobs), cfg.rootdir, dirs, links, dir, AcceptedServices(services, ou, filter), true);
    }
  }

  lemma FewerOus(root: string, services: seq<Service>, ous: seq<OrgUnit>, filter: Filter)
    requires ous != []
    ensures LinkPaths(root, services, ous[..|ous| - 1], filter) <= LinkPaths(root, services, ous, filter)
    ensures forall i :: 0 <= i < |services| && filter(services[i], ous[|ous| - 1]) ==>
              root + "/" + ous[|ous| - 1].name + "/" + services[i].name in LinkPaths(root, services, ous, filter)
  {
  }

  ghost predicate Setting(cfg: Config, services: seq<Service>, ous: seq<OrgUnit>, filter: Filter, dirs: set<string>, links: set<string>) {
    && cfg.Valid() && CleanOrg(services, ous)
    && dirs == DirPaths(cfg, services, ous, filter)
    && links == LinkPaths(cfg.OrgUnitRoot(), services, ous, filter)
  }

  lemma SettingPlain(cfg: Config, services: seq<Service>, ous: seq<OrgUnit>, filter: Filter, dirs: set<string>, links: set<string>)
    requires Setting(cfg, services, ous, filter, dirs, links)
    ensures forall p :: p in dirs ==> Plain(cfg.rootdir, links, p)
    ensures forall q :: q in links ==> |Parts(q)| == |Parts(cfg.rootdir)| + 3 && Plain(cfg.rootdir, links, q)
    ensures |Parts(cfg.ServiceRoot())| == |Parts(cfg.rootdir)| + 1 && |Parts(cfg.OrgUnitRoot())| == |Parts(cfg.rootdir)| + 1
  {
    hide Plain, Split;
    DirPathsPlain(cfg, services, ous, filter);
    LinkPathsDeep(cfg, services, ous, filter);
    forall q | q in links ensures Plain(cfg.rootdir, links, q) {
      ShallowPlain(cfg.rootdir, links, q);
    }
    AbsIsKey(cfg.rootdir);
    KeyChild(cfg.rootdir, cfg.serviceDir);
    KeyChild(cfg.rootdir, cfg.orgUnitDir);
  }

  /** A top directory is made and then stays. */
  lemma TopMade(t: Tree, root: string, dirs: set<string>, links: set<string>, p: string)
    requires Inside(t.nodes, root, dirs, links) && Plain(root, links, p) && p in dirs && p !in links
    ensures var r := RunScript(t, p, ToplevelSh);
            Inside(r.nodes, root, dirs, links) && Grows(t.nodes, r.nodes) && (!r.err ==> !t.err && IsDir(r.nodes, p))
  {
    hide RunScript, Inside, Plain;
    ScriptInside(t, root, dirs, links, p, ToplevelSh);
  }

  lemma TopStays(n0: Nodes, n1: Nodes, root: string, p: string)
    requires IsDir(n0, p) && |Parts(p)| == |Parts(root)| + 1 && (Grows(n0, n1) || KeepsTop(n0, n1, root))
    ensures IsDir(n1, p)
  {
  }

  lemma ServicePartInside(
    t: Tree, cfg: Config, services: seq<Service>, ous: seq<OrgUnit>, filter: Filter, dirs: set<string>, links: set<string>)
    requires Setting(cfg, services, ous, filter, dirs, links) && Inside(t.nodes, cfg.rootdir, dirs, links)
    ensures var r := ServicePart(t, cfg, services, ous, filter);
            Inside(r.nodes, cfg.rootdir, dirs, links) && (!r.err ==> !t.err && IsDir(r.nodes, cfg.ServiceRoot()))
  {
    hide Inside, Plain, Split, RunScript, RunJobs, ServiceOrgUnitDirs, Grows, KeepsTop;
    SettingPlain(cfg, services, ous, filter, dirs, links);
    var root := cfg.ServiceRoot();
    TopMade(t, cfg.rootdir, dirs, links, root);
    var top := RunScript(t, root, ToplevelSh);
    ServiceJobsIn(root, services, dirs);
    JobsInside(top, cfg.rootdir, dirs, links, ServiceJobs(root, services));
    var mid := RunJobs(top, ServiceJobs(root, services));
    ServicesInside(mid, cfg, dirs, links, services, ous, filter);
    var r := ServiceOrgUnitDirs(mid, root, services, ous, filter);
    if !r.err {
      TopStays(top.nodes, mid.nodes, cfg.rootdir, root);
      TopStays(mid.nodes, r.nodes, cfg.rootdir, root);
    }
  }

  lemma OrgUnitPartInside(
    t: Tree, cfg: Config, services: seq<Service>, ous: seq<OrgUnit>, filter: Filter, dirs: set<string>, links: set<string>)
    requires Setting(cfg, services, ous, filter, dirs, links) && Inside(t.nodes, cfg.rootdir, dirs, links)
    ensures var r := OrgUnitPart(t, cfg, services, ous, filter);
            && Inside(r.nodes, cfg.rootdir, dirs, links)
            && (!r.err ==> !t.err && IsDir(r.nodes, cfg.OrgUnitRoot()))
            && (IsDir(t.nodes, cfg.ServiceRoot()) ==> IsDir(r.nodes, cfg.ServiceRoot()))
  {
    hide Inside, Plain, Split, RunScript, RunJobs, OrgUnitServiceLinks, Grows, KeepsTop;
    SettingPlain(cfg, services, ous, filter, dirs, links);
    var root := cfg.OrgUnitRoot();
    TopMade(t, cfg.rootdir, dirs, links, root);
    var top := RunScript(t, root, ToplevelSh);
    OrgUnitJobsIn(root, ous, dirs);
    JobsInside(top, cfg.rootdir, dirs, links, OrgUnitJobs(root, ous));
    var made := RunJobs(top, OrgUnitJobs(root, ous));
    OusInside(made, cfg, dirs, links, services, ous, filter);
    var linked := OrgUnitServiceLinks(made, root, cfg.serviceDir, ous, services, filter);
    SubdirJobsIn(root, ous, dirs);
    JobsInside(linked, cfg.rootdir, dirs, links, SubdirJobs(root, ous));
    var r := RunJobs(linked, SubdirJobs(root, ous));
    if !r.err { TopChain(top.nodes, made.nodes, linked.nodes, r.nodes, cfg.rootdir, root); }
    if IsDir(t.nodes, cfg.ServiceRoot()) {
      TopStays(t.nodes, top.nodes, cfg.rootdir, cfg.ServiceRoot());
      TopChain(top.nodes, made.nodes, linked.nodes, r.nodes, cfg.rootdir, cfg.ServiceRoot());
    }
  }

  lemma TopChain(a: Nodes, b: Nodes, c: Nodes, d: Nodes, root: string, p: string)
    requires IsDir(a, p) && |Parts(p)| == |Parts(root)| + 1
    requires Grows(a, b) && KeepsTop(b, c, root) && Grows(c, d)
    ensures IsDir(d, p)
  {
    hide Grows, KeepsTop, Split;
    TopStays(a, b, root, p);
    TopStays(b, c, root, p);
    TopStays(c, d, root, p);
  }

  /** The explicit links of the configuration lie neither on nor below a service link or
      another explicit link. */
  ghost predicate NotThroughLinks(cfg: Config, links: set<string>) {
    forall i, q :: 0 <= i < |cfg.symlinks| && q in links + ExplicitPaths(cfg.rootdir, cfg.symlinks) ==>
      !Below(cfg.rootdir + "/" + cfg.symlinks[i].path, q)
  }

  lemma MoreLinks(nodes: Nodes, root: string, dirs: set<string>, links: set<string>, more: set<string>)
    requires Inside(nodes, root, dirs, links) && links <= more
    ensures Inside(nodes, root, dirs, more)
  {
  }

  lemma ExplicitInside(t: Tree, cfg: Config, dirs: set<string>, links: set<string>)
    requires cfg.Valid() && Inside(t.nodes, cfg.rootdir, dirs, links) && NotThroughLinks(cfg, links)
    ensures var r := RunLinkJobs(t, ExplicitJobs(cfg.rootdir, cfg.symlinks));
            && Inside(r.nodes, cfg.rootdir, dirs, links + ExplicitPaths(cfg.rootdir, cfg.symlinks))
            && Grows(t.nodes, r.nodes) && (!r.err ==> !t.err)
  {
    hide Inside, RunLinkJobs, Split, KeyPath;
    var all := links + ExplicitPaths(cfg.rootdir, cfg.symlinks);
    MoreLinks(t.nodes, cfg.rootdir, dirs, links, all);
    AbsIsKey(cfg.rootdir);
    ExplicitClean(cfg.rootdir, cfg.symlinks);
    var jobs := ExplicitJobs(cfg.rootdir, cfg.symlinks);
    forall i | 0 <= i < |jobs| ensures jobs[i].path in all && Plain(cfg.rootdir, all, jobs[i].path) {
      KeyJoin(cfg.rootdir, cfg.symlinks[i].path);
      assert jobs[i].path == cfg.rootdir + "/" + cfg.symlinks[i].path;
    }
    LinkJobsInside(t, cfg.rootdir, dirs, all, jobs);
  }

  // The entries list the expected paths

  lemma ListedIn(entries: seq<Entry>, i: nat)
    requires i < |entries|
    ensures Listed(entries, entries[i].path)
  {
  }

  lemma ListedConcat(a: seq<Entry>, b: seq<Entry>, p: string)
    requires Listed(a, p) || Listed(b, p)
    ensures Listed(a + b, p)
  {
    if Listed(a, p) {
      var i :| 0 <= i < |a| && a[i].path == p;
      assert (a + b)[i] == a[i];
    } else {
      var i :| 0 <= i < |b| && b[i].path == p;
      assert (a + b)[|a| + i] == b[i];
    }
  }

  lemma ListedSnoc(a: seq<Entry>, e: Entry)
    ensures Listed(a + [e], e.path)
  {
    assert (a + [e])[|a|] == e;
  }

  lemma {:induction false} ServiceListed(root: string, services: seq<Service>, i: nat)
    requires i < |services|
    ensures Listed(ServiceDirs(root, services), root + "/" + services[i].name)
  {
    var n := |services| - 1;
    var e := ServiceEntry(root, services[n]);
    if i == n {
      ListedSnoc(ServiceDirs(root, services[..n]), e);
    } else {
      ServiceListed(root, services[..n], i);
      ListedConcat(ServiceDirs(root, services[..n]), [e], root + "/" + services[i].name);
    }
  }

  lemma {:induction false} SouListed(root: string, s: Service, ous: seq<OrgUnit>, filter: Filter, j: nat)
    requires j < |ous| && filter(s, ous[j])
    ensures Listed(SouDirs(root, s, ous, filter), root + "/" + s.name + "/" + ous[j].name)
  {
    var n := |ous| - 1;
    if j == n {
      ListedSnoc(SouDirs(root, s, ous[..n], filter), SouEntry(root, s, ous[n]));
    } else {
      SouListed(root, s, ous[..n], filter, j);
      ListedConcat(SouDirs(root, s, ous[..n], filter), if filter(s, ous[n]) then [SouEntry(root, s, ous[n])] else [],
        root + "/" + s.name + "/" + ous[j].name);
    }
  }

  lemma {:induction false} AllSouListed(root: string, services: seq<Service>, ous: seq<OrgUnit>, filter: Filter, i: nat, j: nat)
    requires i < |services| && j < |ous| && filter(services[i], ous[j])
    ensures Listed(AllSouDirs(root, services, ous, filter), root + "/" + services[i].name + "/" + ous[j].name)
  {
    var n := |services| - 1;
    if i == n {
      SouListed(root, services[n], ous, filter, j);
    } else {
      AllSouListed(root, services[..n], ous, filter, i, j);
    }
    ListedConcat(AllSouDirs(root, services[..n], ous, filter), SouDirs(root, services[n], ous, filter),
      root + "/" + services[i].name + "/" + ous[j].name);
  }

  lemma {:induction false} OrgUnitListed(root: string, ous: seq<OrgUnit>, i: nat)
    requires i < |ous|
    ensures Listed(OrgUnitDirs(root, ous), root + "/" + ous[i].name)
  {
    var n := |ous| - 1;
    var e := OrgUnitEntry(root, ous[n]);
    if i == n {
      ListedSnoc(OrgUnitDirs(root, ous[..n]), e);
    } else {
      OrgUnitListed(root, ous[..n], i);
      ListedConcat(OrgUnitDirs(root, ous[..n]), [e], root + "/" + ous[i].name);
    }
  }

  lemma {:induction false} LinkListed(
    root: string, serviceDir: string, ou: OrgUnit, services: seq<Service>, filter: Filter, i: nat)
    requires i < |services| && filter(services[i], ou)
    ensures Listed(OuLinks(root, serviceDir, ou, services, filter), root + "/" + ou.name + "/" + services[i].name)
  {
    hide Join;
    var n := |services| - 1;
    if i == n {
      ListedSnoc(OuLinks(root, serviceDir, ou, services[..n], filter), ServiceLinkEntry(root, serviceDir, ou, services[n]));
    } else {
      LinkListed(root, serviceDir, ou, services[..n], filter, i);
      ListedConcat(OuLinks(root, serviceDir, ou, services[..n], filter),
        if filter(services[n], ou) then [ServiceLinkEntry(root, serviceDir, ou, services[n])] else [],
        root + "/" + ou.name + "/" + services[i].name);
    }
  }

  lemma {:induction false} AllLinksListed(
    root: string, serviceDir: string, ous: seq<OrgUnit>, services: seq<Service>, filter: Filter, j: nat, i: nat)
    requires j < |ous| && i < |services| && filter(services[i], ous[j])
    ensures Listed(AllOuLinks(root, serviceDir, ous, services, filter), root + "/" + ous[j].name + "/" + services[i].name)
  {
    hide OuLinks;
    var n := |ous| - 1;
    if j == n {
      LinkListed(root, serviceDir, ous[n], services, filter, i);
    } else {
      AllLinksListed(root, serviceDir, ous[..n], services, filter, j, i);
    }
    ListedConcat(AllOuLinks(root, serviceDir, ous[..n], services, filter), OuLinks(root, serviceDir, ous[n], services, filter),
      root + "/" + ous[j].name + "/" + services[i].name);
  }

  lemma {:induction false} SubdirListed(root: string, ou: OrgUnit, subdirs: seq<DirWithPolicy>, j: nat)
    requires j < |subdirs|
    ensures Listed(OuSubdirs(root, ou, subdirs), root + "/" + ou.name + "/" + subdirs[j].name)
  {
    var n := |subdirs| - 1;
    var e := SubdirEntry(root, ou, subdirs[n]);
    if j == n {
      ListedSnoc(OuSubdirs(root, ou, subdirs[..n]), e);
    } else {
      SubdirListed(root, ou, subdirs[..n], j);
      ListedConcat(OuSubdirs(root, ou, subdirs[..n]), [e], root + "/" + ou.name + "/" + subdirs[j].name);
    }
  }

  lemma {:induction false} AllSubdirsListed(root: string, ous: seq<OrgUnit>, i: nat, j: nat)
    requires i < |ous| && j < |ous[i].subdirs|
    ensures Listed(AllSubdirs(root, ous), root + "/" + ous[i].name + "/" + ous[i].subdirs[j].name)
  {
    var n := |ous| - 1;
    if i == n {
      SubdirListed(root, ous[n], ous[n].subdirs, j);
    } else {
      AllSubdirsListed(root, ous[..n], i, j);
    }
    ListedConcat(AllSubdirs(root, ous[..n]), OuSubdirs(root, ous[n], ous[n].subdirs),
      root + "/" + ous[i].name + "/" + ous[i].subdirs[j].name);
  }

  /** A list of six parts, and where to find an element of a part. */
  lemma SixParts(a: seq<Entry>, b: seq<Entry>, c: seq<Entry>, d: seq<Entry>, e: seq<Entry>, f: seq<Entry>, p: string)
    requires Listed(a, p) || Listed(b, p) || Listed(c, p) || Listed(d, p) || Listed(e, p) || Listed(f, p)
    ensures Listed(a + b + c + d + e + f, p)
  {
    hide Listed;
    if Listed(a, p) || Listed(b, p) { ListedConcat(a, b, p); }
    if Listed(a + b, p) || Listed(c, p) { ListedConcat(a + b, c, p); }
    if Listed(a + b + c, p) || Listed(d, p) { ListedConcat(a + b + c, d, p); }
    if Listed(a + b + c + d, p) || Listed(e, p) { ListedConcat(a + b + c + d, e, p); }
    ListedConcat(a + b + c + d + e, f, p);
  }

  lemma ExpectedListed(cfg: Config, services: seq<Service>, ous: seq<OrgUnit>, filter: Filter, p: string)
    requires p in DirPaths(cfg, services, ous, filter) || p in LinkPaths(cfg.OrgUnitRoot(), services, ous, filter)
    ensures Listed(FsCheck.Entries(cfg, services, ous, filter), p)
  {
    hide Listed;
    var s, o := cfg.ServiceRoot(), cfg.OrgUnitRoot();
    var tops := [DirEntry(cfg.rootdir, Toplevel), DirEntry(s, Toplevel), DirEntry(o, Toplevel)];
    ListedIn(tops, 1);
    ListedIn(tops, 2);
    if p in LinkPaths(o, services, ous, filter) {
      var i, j :| 0 <= i < |services| && 0 <= j < |ous| && filter(services[i], ous[j]) &&
        p == o + "/" + ous[j].name + "/" + services[i].name;
      AllLinksListed(o, cfg.serviceDir, ous, services, filter, j, i);
    } else if p in ServicePaths(s, services) {
      var i :| 0 <= i < |services| && p == s + "/" + services[i].name;
      ServiceListed(s, services, i);
    } else if p in OuPaths(o, ous) {
      var i :| 0 <= i < |ous| && p == o + "/" + ous[i].name;
      OrgUnitListed(o, ous, i);
    } else if p in SouPaths(s, services, ous, filter) {
      var i, j :| 0 <= i < |services| && 0 <= j < |ous| && filter(services[i], ous[j]) &&
        p == s + "/" + services[i].name + "/" + ous[j].name;
      AllSouListed(s, services, ous, filter, i, j);
    } else if p in SubdirPaths(o, ous) {
      var i, j :| 0 <= i < |ous| && 0 <= j < |ous[i].subdirs| && p == o + "/" + ous[i].name + "/" + ous[i].subdirs[j].name;
      AllSubdirsListed(o, ous, i, j);
    }
    SixParts(tops, ServiceDirs(s, services), AllSouDirs(s, services, ous, filter), OrgUnitDirs(o, ous),
      AllOuLinks(o, cfg.serviceDir, ous, services, filter), AllSubdirs(o, ous), p);
  }

  lemma {:induction false} ExplicitKeys(root: string, links: seq<ExplicitLink>)
    ensures ExplicitMap(root, links).Keys == ExplicitPaths(root, links)
  {
    if links == [] {
      assert ExplicitPaths(root, links) == {};
    } else {
      var n := |links| - 1;
      ExplicitKeys(root, links[..n]);
      forall p ensures p in ExplicitPaths(root, links) <==> p in ExplicitPaths(root, links[..n]) || p == root + "/" + links[n].path {
        if p in ExplicitPaths(root, links) {
          var i :| 0 <= i < |links| && p == root + "/" + links[i].path;
          assert i < n ==> links[..n][i] == links[i];
        }
        if p in ExplicitPaths(root, links[..n]) {
          var i :| 0 <= i < n && p == root + "/" + links[..n][i].path;
          assert links[i] == links[..n][i];
        }
      }
    }
  }

  /** A tree with nothing else passes the check for unexpected paths. */
  lemma InsidePasses(nodes: Nodes, root: string, dirs: set<string>, links: set<string>, top: string,
                     entries: seq<Entry>, explicit: map<string, string>)
    requires Inside(nodes, root, dirs, links) && ChildOf(top, root) && IsDir(nodes, top)
    requires Listed(entries, top)
    requires forall p :: p in dirs || p in links ==> Listed(entries, p) || p in explicit
    ensures Found(nodes, top).Some? && NoUnexpected(nodes, top, entries, explicit)
  {
    hide WellFormed, Listed, Locate;
    ChildSplit(top, root);
    LocateInDir(nodes, top);
    forall p | p in Found(nodes, top).value ensures Listed(entries, p) || p in explicit {
      if p != top {
        var q :| q in nodes && (ChildOf(q, top) || (ChildOf(q, Parent(q)) && ChildOf(Parent(q), top))) && p == top + q[|top|..];
        FoundBelow(q, top);
        assert p == q;
        BelowTransitive(q, top, root);
      }
    }
  }

  lemma FoundBelow(q: string, top: string)
    requires ChildOf(q, top) || (ChildOf(q, Parent(q)) && ChildOf(Parent(q), top))
    ensures Below(q, top) && q == top + q[|top|..]
  {
    if !ChildOf(q, top) { BelowTransitive(q, Parent(q), top); }
  }

  /** The root directory exists and is empty. */
  ghost predicate EmptyRoot(nodes: Nodes, root: string) {
    WellFormed(nodes) && IsDir(nodes, root) && forall q :: q in nodes ==> !Below(q, root)
  }

  /** After an apply run without error below an empty root, for every organization and
      filter, no path is unexpected. */
  lemma FreshHasNoUnexpected(t: Tree, cfg: Config, services: seq<Service>, ous: seq<OrgUnit>, filter: Filter)
    requires cfg.Valid() && CleanOrg(services, ous) && EmptyRoot(t.nodes, cfg.rootdir)
    requires NotThroughLinks(cfg, LinkPaths(cfg.OrgUnitRoot(), services, ous, filter))
    requires !Applied(t, cfg, services, ous, filter).err
    ensures var r := Applied(t, cfg, services, ous, filter);
            var entries := FsCheck.Entries(cfg, services, ous, filter);
            var explicit := ExplicitMap(cfg.rootdir, cfg.symlinks);
            && Found(r.nodes, cfg.ServiceRoot()).Some? && NoUnexpected(r.nodes, cfg.ServiceRoot(), entries, explicit)
            && Found(r.nodes, cfg.OrgUnitRoot()).Some? && NoUnexpected(r.nodes, cfg.OrgUnitRoot(), entries, explicit)
  {
    var dirs, links := DirPaths(cfg, services, ous, filter), LinkPaths(cfg.OrgUnitRoot(), services, ous, filter);
    FreshInside(t, cfg, services, ous, filter, dirs, links);
    hide WellFormed, ServicePart, OrgUnitPart, RunLinkJobs, DirPaths, LinkPaths, FsCheck.Entries, Found, NoUnexpected, Listed, Inside;
    var all := links + ExplicitPaths(cfg.rootdir, cfg.symlinks);
    var r := Applied(t, cfg, services, ous, filter);
    var entries := FsCheck.Entries(cfg, services, ous, filter);
    var explicit := ExplicitMap(cfg.rootdir, cfg.symlinks);
    ExplicitKeys(cfg.rootdir, cfg.symlinks);
    forall p | p in dirs || p in all ensures Listed(entries, p) || p in explicit {
      if p in dirs || p in links { ExpectedListed(cfg, services, ous, filter, p); }
    }
    TopsListed(cfg, services, ous, filter);
    MakeChild(cfg.rootdir, cfg.serviceDir);
    MakeChild(cfg.rootdir, cfg.orgUnitDir);
    InsidePasses(r.nodes, cfg.rootdir, dirs, all, cfg.ServiceRoot(), entries, explicit);
    InsidePasses(r.nodes, cfg.rootdir, dirs, all, cfg.OrgUnitRoot(), entries, explicit);
  }

  lemma TopsListed(cfg: Config, services: seq<Service>, ous: seq<OrgUnit>, filter: Filter)
    ensures Listed(FsCheck.Entries(cfg, services, ous, filter), cfg.ServiceRoot())
    ensures Listed(FsCheck.Entries(cfg, services, ous, filter), cfg.OrgUnitRoot())
  {
    ExpectedListed(cfg, services, ous, filter, cfg.ServiceRoot());
    ExpectedListed(cfg, services, ous, filter, cfg.OrgUnitRoot());
  }

  lemma FreshInside(
    t: Tree, cfg: Config, services: seq<Service>, ous: seq<OrgUnit>, filter: Filter, dirs: set<string>, links: set<string>)
    requires Setting(cfg, services, ous, filter, dirs, links) && EmptyRoot(t.nodes, cfg.rootdir)
    requires NotThroughLinks(cfg, links) && !Applied(t, cfg, services, ous, filter).err
    ensures var r := Applied(t, cfg, services, ous, filter);
            && Inside(r.nodes, cfg.rootdir, dirs, links + ExplicitPaths(cfg.rootdir, cfg.symlinks))
            && IsDir(r.nodes, cfg.ServiceRoot()) && IsDir(r.nodes, cfg.OrgUnitRoot())
  {
    hide WellFormed, ServicePart, OrgUnitPart, RunLinkJobs, DirPaths, LinkPaths;
    ServicePartInside(t, cfg, services, ous, filter, dirs, links);
    var srv := ServicePart(t, cfg, services, ous, filter);
    OrgUnitPartInside(srv, cfg, services, ous, filter, dirs, links);
    ExplicitInside(OrgUnitPart(srv, cfg, services, ous, filter), cfg, dirs, links);
  }

  /** Apply implies check, structure: below an empty root, an apply run without error
      passes both checks for unexpected paths and both symlink checks. */
  lemma FreshApplyPasses(t: Tree, cfg: Config, services: seq<Service>, ous: seq<OrgUnit>, filter: Filter)
    requires cfg.Valid() && CleanOrg(services, ous) && DistinctOus(ous) && EmptyRoot(t.nodes, cfg.rootdir)
    requires NotThroughLinks(cfg, LinkPaths(cfg.OrgUnitRoot(), services, ous, filter))
    requires !Applied(t, cfg, services, ous, filter).err
    ensures var r := Applied(t, cfg, services, ous, filter);
            var entries := FsCheck.Entries(cfg, services, ous, filter);
            var explicit := ExplicitMap(cfg.rootdir, cfg.symlinks);
            && Found(r.nodes, cfg.ServiceRoot()).Some? && NoUnexpected(r.nodes, cfg.ServiceRoot(), entries, explicit)
            && Found(r.nodes, cfg.OrgUnitRoot()).Some? && NoUnexpected(r.nodes, cfg.OrgUnitRoot(), entries, explicit)
            && LinksPass(r.nodes, entries) && ExplicitPass(r.nodes, explicit)
  {
    hide Applied, FsCheck.Entries, NoUnexpected, LinksPass, ExplicitPass, Found, LinkPaths;
    FreshHasNoUnexpected(t, cfg, services, ous, filter);
    forall i | 0 <= i < |ous| ensures NoLinks(t.nodes, cfg.OrgUnitRoot() + "/" + ous[i].name) {
      AbsIsKey(cfg.rootdir);
      OneDeep(cfg.rootdir, cfg.orgUnitDir, ous[i].name);
      EmptyHasNoLinks(t.nodes, cfg.rootdir, cfg.OrgUnitRoot() + "/" + ous[i].name);
    }
    AppliedLinksPass(t, cfg, services, ous, filter);
  }

  lemma EmptyHasNoLinks(nodes: Nodes, root: string, p: string)
    requires EmptyRoot(nodes, root) && Below(p, root)
    ensures NoLinks(nodes, p)
  {
    hide WellFormed;
    forall q | q in nodes && (q == p || Below(p, q)) ensures !nodes[q].Link? {
      if q != root { AboveRoot(nodes, root, p, q); }
    }
  }
}
