/** Explicit links whose paths run through no link: which service links an apply run leaves,
    read off the start tree and the configuration. */
module ExplicitLinks {
  import opened Strings
  import opened Paths
  import opened Sharing
  import opened FileSystem
  import opened PosixAcl
  import opened DirScripts
  import opened Organization
  import opened FsApply
  import opened ApplySteps
  import opened FsCheck
  import opened ApplySymlinks
  import opened ApplyLinks

  function ExplicitPath(cfg: Config, l: nat): string
    requires l < |cfg.symlinks|
  {
    cfg.rootdir + "/" + cfg.symlinks[l].path
  }

  /** The configuration has an explicit link with this path and target. */
  ghost predicate ExplicitAt(cfg: Config, p: string, dest: string) {
    exists l :: 0 <= l < |cfg.symlinks| && ExplicitPath(cfg, l) == p && cfg.symlinks[l].target == dest
  }

  /** Nothing above `p` is a link, neither now nor when the run makes its links. */
  ghost predicate PlainPath(nodes: Nodes, cfg: Config, services: seq<Service>, ds: seq<string>, p: string) {
    && NoLinks(nodes, Parent(p))
    && (forall i, j :: 0 <= i < |ds| && 0 <= j < |services| ==> !Below(p, ds[i] + "/" + services[j].name))
    && (forall m :: 0 <= m < |cfg.symlinks| ==> !Below(p, ExplicitPath(cfg, m)))
  }

  ghost predicate PlainExplicit(nodes: Nodes, cfg: Config, services: seq<Service>, ds: seq<string>) {
    forall l :: 0 <= l < |cfg.symlinks| ==> PlainPath(nodes, cfg, services, ds, ExplicitPath(cfg, l))
  }

  lemma ExplicitKey(cfg: Config, l: nat)
    requires cfg.Valid() && l < |cfg.symlinks|
    ensures var p := ExplicitPath(cfg, l); KeyPath(Parent(p)) && ChildOf(p, Parent(p))
  {
    AbsIsKey(cfg.rootdir);
    KeyJoin(cfg.rootdir, cfg.symlinks[l].path);
    KeyParent(ExplicitPath(cfg, l));
  }

  // Links before the explicit ones

  lemma OuDirsNoNewLinks(t: Tree, cfg: Config, services: seq<Service>, ous: seq<OrgUnit>, filter: Filter)
    requires WellFormed(t.nodes) && cfg.Valid() && CleanOrg(services, ous)
    ensures NoNewLinks(t.nodes, AfterOuDirs(t, cfg, services, ous, filter).nodes)
  {
    hide RunScript, RunJobs, ServicePart, WellFormed;
    ServicePartNoNewLinks(t, cfg, services, ous, filter);
    var srv := ServicePart(t, cfg, services, ous, filter);
    MakeChild(cfg.rootdir, cfg.orgUnitDir);
    ScriptAddsDirs(srv, cfg.OrgUnitRoot(), ToplevelSh);
    OrgUnitJobsClean(cfg.OrgUnitRoot(), ous);
    JobsAddDirs(RunScript(srv, cfg.OrgUnitRoot(), ToplevelSh), OrgUnitJobs(cfg.OrgUnitRoot(), ous));
  }

  ghost predicate ServiceLinkAt(services: seq<Service>, ds: seq<string>, q: string) {
    exists i, j :: 0 <= i < |ds| && 0 <= j < |services| && q == ds[i] + "/" + services[j].name
  }

  /** The links after the link stage are links of the start tree or service links. */
  lemma StageLinks(
    t: Tree, cfg: Config, services: seq<Service>, ous: seq<OrgUnit>, filter: Filter, ds: seq<string>, base: Nodes, q: string)
    requires LinkStart(t, cfg, services, ous, filter, ds, base)
    requires var linked := AfterLinks(t, cfg, services, ous, filter).nodes; q in linked && linked[q].Link?
    ensures (q in t.nodes && t.nodes[q].Link?) || ServiceLinkAt(services, ds, q)
  {
    hide Applied, AfterLinks, AfterOuDirs, WellFormed, OuLinked, Resolve, Leads, KeepsBut;
    RunLinks(t, cfg, services, ous, filter, ds, base);
    OuDirsNoNewLinks(t, cfg, services, ous, filter);
    var made, linked := AfterOuDirs(t, cfg, services, ous, filter).nodes, AfterLinks(t, cfg, services, ous, filter).nodes;
    if !(q in made && made[q] == linked[q]) {
      var i :| 0 <= i < |ds| && ChildOf(q, ds[i]);
      var o := Owner(ds, i);
      assert NoStaleLinks(linked, ds[o], ous[o], services, filter);
      var j :| 0 <= j < |services| && filter(services[j], ous[o]) && services[j].name == q[|ds[i]| + 1..];
      ChildSplit(q, ds[i]);
    }
  }

  /** No link above an explicit path when the explicit links are made. */
  lemma PlainBefore(
    t: Tree, cfg: Config, services: seq<Service>, ous: seq<OrgUnit>, filter: Filter, ds: seq<string>, base: Nodes, l: nat)
    requires LinkStart(t, cfg, services, ous, filter, ds, base) && PlainExplicit(t.nodes, cfg, services, ds) && l < |cfg.symlinks|
    ensures NoLinks(AfterSubdirs(t, cfg, services, ous, filter).nodes, Parent(ExplicitPath(cfg, l)))
  {
    hide Applied, AfterLinks, AfterSubdirs, AfterOuDirs, WellFormed, OuLinked, NoStaleLinks, Resolve, Leads, KeepsBut, IsDestSymlink;
    RunLinks(t, cfg, services, ous, filter, ds, base);
    LaterStages(t, cfg, services, ous, filter);
    ExplicitKey(cfg, l);
    var p, org := ExplicitPath(cfg, l), AfterSubdirs(t, cfg, services, ous, filter).nodes;
    assert PlainPath(t.nodes, cfg, services, ds, p);
    forall q | q in org && (q == Parent(p) || Below(Parent(p), q)) ensures !org[q].Link? {
      if q != Parent(p) { BelowTransitive(p, Parent(p), q); }
      if org[q].Link? { StageLinks(t, cfg, services, ous, filter, ds, base, q); }
    }
  }

  // The explicit links

  /** New nodes are explicit links at their own paths. */
  ghost predicate NewExplicit(n0: Nodes, n1: Nodes, cfg: Config, k: nat)
    requires k <= |cfg.symlinks|
  {
    forall q :: q in n1 && !(q in n0 && n0[q] == n1[q]) ==> exists m :: 0 <= m < k && q == ExplicitPath(cfg, m)
  }

  lemma StillPlain(n0: Nodes, n1: Nodes, cfg: Config, k: nat, l: nat)
    requires k <= |cfg.symlinks| && l < |cfg.symlinks| && cfg.Valid() && NewExplicit(n0, n1, cfg, k)
    requires NoLinks(n0, Parent(ExplicitPath(cfg, l)))
    requires forall m :: 0 <= m < |cfg.symlinks| ==> !Below(ExplicitPath(cfg, l), ExplicitPath(cfg, m))
    ensures NoLinks(n1, Parent(ExplicitPath(cfg, l)))
  {
    ExplicitKey(cfg, l);
    var p := ExplicitPath(cfg, l);
    forall q | q in n1 && (q == Parent(p) || Below(Parent(p), q)) ensures !n1[q].Link? {
      if q != Parent(p) { BelowTransitive(p, Parent(p), q); }
    }
  }

  lemma NothingExplicit(nodes: Nodes, cfg: Config)
    ensures NewExplicit(nodes, nodes, cfg, 0)
  {
  }

  lemma {:induction false} ExplicitStage(t: Tree, cfg: Config, k: nat)
    requires WellFormed(t.nodes) && cfg.Valid() && k <= |cfg.symlinks|
    requires forall l :: 0 <= l < |cfg.symlinks| ==> NoLinks(t.nodes, Parent(ExplicitPath(cfg, l)))
    requires forall l, m :: 0 <= l < |cfg.symlinks| && 0 <= m < |cfg.symlinks| ==> !Below(ExplicitPath(cfg, l), ExplicitPath(cfg, m))
    ensures var r := RunLinkJobs(t, ExplicitJobs(cfg.rootdir, cfg.symlinks[..k])); WellFormed(r.nodes) && NewExplicit(t.nodes, r.nodes, cfg, k)
  {
    hide MakeLink, WellFormed, Locate, NoLinks, RunLinkJobs, KeyPath, NewExplicit, Config.Valid;
    NoLinkJobs(t);
    NothingExplicit(t.nodes, cfg);
    NoExplicitJobs(cfg.rootdir);
    if k == 0 {
      assert cfg.symlinks[..0] == [];
    } else {
      var n := k - 1;
      ExplicitStage(t, cfg, n);
      Last(cfg.symlinks, n);
      var mid := RunLinkJobs(t, ExplicitJobs(cfg.rootdir, cfg.symlinks[..n]));
      var job := LinkJob(ExplicitPath(cfg, n), cfg.symlinks[n].target);
      LinkOneMore(t, ExplicitJobs(cfg.rootdir, cfg.symlinks[..n]), job);
      StillPlain(t.nodes, mid.nodes, cfg, n, n);
      ExplicitStep(mid, cfg, n);
      OneMoreNew(t.nodes, mid.nodes, MakeLink(mid, job.dest, job.path).nodes, cfg, n);
    }
  }

  lemma ExplicitStep(t: Tree, cfg: Config, n: nat)
    requires WellFormed(t.nodes) && cfg.Valid() && n < |cfg.symlinks| && NoLinks(t.nodes, Parent(ExplicitPath(cfg, n)))
    ensures var p, dest := ExplicitPath(cfg, n), cfg.symlinks[n].target;
            var r := MakeLink(t, dest, p);
            WellFormed(r.nodes) && (r.nodes == t.nodes || r.nodes == t.nodes[p := Link(dest)])
  {
    hide MakeLink, WellFormed, Locate, NoLinks, KeyPath;
    var p, dest := ExplicitPath(cfg, n), cfg.symlinks[n].target;
    ExplicitKey(cfg, n);
    ChildSplit(p, Parent(p));
    LocatePlain(t.nodes, Parent(p), p[|Parent(p)| + 1..]);
    MakeLinkPasses(t, dest, p);
    MakeLinkAdds(t, dest, p);
  }

  lemma OneMoreNew(n0: Nodes, n1: Nodes, n2: Nodes, cfg: Config, k: nat)
    requires k < |cfg.symlinks| && NewExplicit(n0, n1, cfg, k)
    requires n2 == n1 || n2 == n1[ExplicitPath(cfg, k) := Link(cfg.symlinks[k].target)]
    ensures NewExplicit(n0, n2, cfg, k + 1)
  {
    hide ExplicitPath;
    forall q | q in n2 && !(q in n0 && n0[q] == n2[q]) ensures exists m :: 0 <= m < k + 1 && q == ExplicitPath(cfg, m) {
      if q != ExplicitPath(cfg, k) {
        var m :| 0 <= m < k && q == ExplicitPath(cfg, m);
      }
    }
  }

  /** In the final tree, an explicit path names itself. */
  lemma ExplicitLocated(
    t: Tree, cfg: Config, services: seq<Service>, ous: seq<OrgUnit>, filter: Filter, ds: seq<string>, base: Nodes, l: nat)
    requires LinkStart(t, cfg, services, ous, filter, ds, base) && PlainExplicit(t.nodes, cfg, services, ds) && l < |cfg.symlinks|
    ensures Locate(Applied(t, cfg, services, ous, filter).nodes, ExplicitPath(cfg, l)) == Some(ExplicitPath(cfg, l))
  {
    hide Applied, AfterLinks, AfterSubdirs, AfterOuDirs, WellFormed, OuLinked, NoStaleLinks, Resolve, Leads, KeepsBut, Locate, NoLinks, RunLinkJobs,
         ExplicitJobs, KeyPath, AddsDirs;
    RunLinks(t, cfg, services, ous, filter, ds, base);
    LaterStages(t, cfg, services, ous, filter);
    AppliedStages(t, cfg, services, ous, filter);
    var org, r := AfterSubdirs(t, cfg, services, ous, filter), Applied(t, cfg, services, ous, filter);
    forall m | 0 <= m < |cfg.symlinks| ensures NoLinks(org.nodes, Parent(ExplicitPath(cfg, m))) {
      PlainBefore(t, cfg, services, ous, filter, ds, base, m);
    }
    NoneBelow(t.nodes, cfg, services, ds);
    ExplicitStage(org, cfg, |cfg.symlinks|);
    assert cfg.symlinks[..|cfg.symlinks|] == cfg.symlinks;
    StillPlain(org.nodes, r.nodes, cfg, |cfg.symlinks|, l);
    AbsIsKey(cfg.rootdir);
    ExplicitClean(cfg.rootdir, cfg.symlinks);
    var jobs := ExplicitJobs(cfg.rootdir, cfg.symlinks);
    assert IsDestSymlink(r.nodes, jobs[l].dest, jobs[l].path);
    ExplicitKey(cfg, l);
    var p := ExplicitPath(cfg, l);
    ChildSplit(p, Parent(p));
    LocatePlain(r.nodes, Parent(p), p[|Parent(p)| + 1..]);
  }

  /** So the final tree is not needed to tell which service links are made again. */
  lemma RemadePlain(
    t: Tree, cfg: Config, services: seq<Service>, ous: seq<OrgUnit>, filter: Filter, ds: seq<string>, base: Nodes, p: string, dest: string)
    requires LinkStart(t, cfg, services, ous, filter, ds, base) && PlainExplicit(t.nodes, cfg, services, ds)
    ensures Remade(Applied(t, cfg, services, ous, filter).nodes, cfg, p, dest) <==> ExplicitAt(cfg, p, dest)
  {
    hide Applied, Locate, LinkRun, PlainExplicit;
    forall l | 0 <= l < |cfg.symlinks|
      ensures Locate(Applied(t, cfg, services, ous, filter).nodes, ExplicitPath(cfg, l)) == Some(ExplicitPath(cfg, l))
    {
      ExplicitLocated(t, cfg, services, ous, filter, ds, base, l);
    }
  }

  /** If the explicit paths run through no link, a run without error passes the check of the
      service links if and only if the walk to every org unit directory with services still
      leads there, and every link is kept or configured as an explicit link with the same
      target. */
  lemma PlainLinksPassIff(
    t: Tree, cfg: Config, services: seq<Service>, ous: seq<OrgUnit>, filter: Filter, ds: seq<string>, base: Nodes)
    requires LinkRun(t, cfg, services, ous, filter, ds, base) && PlainExplicit(t.nodes, cfg, services, ds) && DistinctServices(services)
    ensures |ds| == |ous|
    ensures LinksPass(Applied(t, cfg, services, ous, filter).nodes, FsCheck.Entries(cfg, services, ous, filter)) <==>
            forall i, j :: 0 <= i < |ous| && 0 <= j < |services| && filter(services[j], ous[i]) ==>
              && Reaches(base, cfg, services, ous, filter, ds, i)
              && (|| Kept(cfg, services, ous, filter, ds, i, j)
                  || ExplicitAt(cfg, ds[i] + "/" + services[j].name, LinkDest(cfg.serviceDir, ous[i], services[j])))
  {
    hide Applied, LinksPass, FsCheck.Entries, LinkDest, Kept, Remade, ExplicitAt, LinkStart, PlainExplicit, DistinctServices, Reaches,
         AfterLinks, NotReplaced;
    AppliedLinksPassIff(t, cfg, services, ous, filter, ds, base);
    var r := Applied(t, cfg, services, ous, filter).nodes;
    forall i, j | 0 <= i < |ous| && 0 <= j < |services| && filter(services[j], ous[i])
      ensures Stays(r, cfg, services, ous, filter, ds, i, j) <==>
              || Kept(cfg, services, ous, filter, ds, i, j)
              || ExplicitAt(cfg, ds[i] + "/" + services[j].name, LinkDest(cfg.serviceDir, ous[i], services[j]))
    {
      RemadePlain(t, cfg, services, ous, filter, ds, base, ds[i] + "/" + services[j].name, LinkDest(cfg.serviceDir, ous[i], services[j]));
    }
  }

  /** With distinct org units and facilities and no explicit path directly in an org unit
      directory: if and only if, for every org unit with services, the walk to its directory
      still leads there and no later org unit shares it. */
  lemma PlainLinksPassApart(
    t: Tree, cfg: Config, services: seq<Service>, ous: seq<OrgUnit>, filter: Filter, ds: seq<string>, base: Nodes)
    requires LinkRun(t, cfg, services, ous, filter, ds, base) && PlainExplicit(t.nodes, cfg, services, ds)
    requires DistinctServices(services) && OwnTargets(ous)
    requires forall l, i :: 0 <= l < |cfg.symlinks| && 0 <= i < |ds| ==> !ChildOf(ExplicitPath(cfg, l), ds[i])
    ensures |ds| == |ous|
    ensures LinksPass(Applied(t, cfg, services, ous, filter).nodes, FsCheck.Entries(cfg, services, ous, filter)) <==>
            forall i :: 0 <= i < |ous| && AcceptedServices(services, ous[i], filter) != {} ==>
              Reaches(base, cfg, services, ous, filter, ds, i) && LastOf(ds, i, |ous|)
  {
    hide Applied, LinksPass, FsCheck.Entries, LinkStart, PlainExplicit, DistinctServices, OwnTargets, Locate, AcceptedServices, Reaches,
         AfterLinks, NotReplaced;
    var r := Applied(t, cfg, services, ous, filter).nodes;
    forall l | 0 <= l < |cfg.symlinks| ensures Locate(r, ExplicitPath(cfg, l)) == Some(ExplicitPath(cfg, l)) {
      ExplicitLocated(t, cfg, services, ous, filter, ds, base, l);
    }
    OwnPathsElsewhere(r, cfg, ds);
    AppliedLinksPassApart(t, cfg, services, ous, filter, ds, base);
  }

  lemma OwnPathsElsewhere(nodes: Nodes, cfg: Config, ds: seq<string>)
    requires forall l :: 0 <= l < |cfg.symlinks| ==> Locate(nodes, ExplicitPath(cfg, l)) == Some(ExplicitPath(cfg, l))
    requires forall l, i :: 0 <= l < |cfg.symlinks| && 0 <= i < |ds| ==> !ChildOf(ExplicitPath(cfg, l), ds[i])
    ensures ExplicitElsewhere(nodes, cfg, ds)
  {
    hide Locate;
    forall l | 0 <= l < |cfg.symlinks| ensures Locate(nodes, cfg.rootdir + "/" + cfg.symlinks[l].path) == Some(ExplicitPath(cfg, l)) {
      assert ExplicitPath(cfg, l) == cfg.rootdir + "/" + cfg.symlinks[l].path;
    }
  }

  // Nothing in the place of a removed link

  /** No additional directory and no explicit link has the path of a link of `base` directly
      in an org unit directory. */
  ghost predicate NoneInPlace(base: Nodes, cfg: Config, ous: seq<OrgUnit>, ds: seq<string>)
    requires |ds| == |ous|
  {
    && (forall k, d :: 0 <= k < |ous| && 0 <= d < |ous[k].subdirs| ==> NoLinkAt(base, ds[k] + "/" + ous[k].subdirs[d].name))
    && (forall l :: 0 <= l < |cfg.symlinks| ==> NoLinkAt(base, ExplicitPath(cfg, l)))
  }

  ghost predicate NoLinkAt(base: Nodes, p: string) {
    p in base ==> !base[p].Link?
  }

  /** The job is for an additional directory. */
  ghost predicate SubdirAt(root: string, ous: seq<OrgUnit>, path: string) {
    exists k, d :: 0 <= k < |ous| && 0 <= d < |ous[k].subdirs| && path == root + "/" + ous[k].name + "/" + ous[k].subdirs[d].name
  }

  ghost predicate AllForSubdirs(root: string, ous: seq<OrgUnit>, jobs: seq<DirJob>) {
    forall x :: 0 <= x < |jobs| ==> SubdirAt(root, ous, jobs[x].path)
  }

  lemma {:induction false} OuSubdirJobsAt(root: string, ous: seq<OrgUnit>, k: nat, n: nat)
    requires k < |ous| && n <= |ous[k].subdirs|
    ensures AllForSubdirs(root, ous, OuSubdirJobs(root, ous[k], ous[k].subdirs[..n]))
  {
    if n > 0 {
      OuSubdirJobsAt(root, ous, k, n - 1);
      Last(ous[k].subdirs, n - 1);
      assert SubdirAt(root, ous, root + "/" + ous[k].name + "/" + ous[k].subdirs[n - 1].name);
    }
  }

  lemma {:induction false} SubdirJobsAt(root: string, ous: seq<OrgUnit>, n: nat)
    requires n <= |ous|
    ensures AllForSubdirs(root, ous, SubdirJobs(root, ous[..n]))
  {
    hide SubdirAt, OuSubdirJobs;
    if n > 0 {
      SubdirJobsAt(root, ous, n - 1);
      Last(ous, n - 1);
      OuSubdirJobsAt(root, ous, n - 1, |ous[n - 1].subdirs|);
      assert ous[n - 1].subdirs[..|ous[n - 1].subdirs|] == ous[n - 1].subdirs;
    }
  }

  /** A script makes at most the directory at the place of its path. */
  lemma ScriptPlace(t: Tree, path: string, s: DirScript)
    ensures var r := RunScript(t, path, s).nodes;
            r == t.nodes || (Locate(t.nodes, path).Some? && r == t.nodes[Locate(t.nodes, path).value := Dir])
  {
    hide Resolve, Locate, AfterScript, Inherit, AclAt;
  }

  ghost predicate NotPut(base: Nodes, linked: Nodes, n: Nodes) {
    Grows(linked, n) && forall p :: p in base && p in n ==> p in linked
  }

  lemma SubdirStep(
    base: Nodes, linked: Nodes, t: Tree, cfg: Config, ous: seq<OrgUnit>, ds: seq<string>, job: DirJob)
    requires |ds| == |ous| && Leads(base, cfg.OrgUnitRoot(), ous, ds) && KeepsBut(base, linked, ds, |ous|)
    requires forall k, d :: 0 <= k < |ous| && 0 <= d < |ous[k].subdirs| ==>
               CleanName(ous[k].subdirs[d].name) && NoLinkAt(base, ds[k] + "/" + ous[k].subdirs[d].name)
    requires NotPut(base, linked, t.nodes) && SubdirAt(cfg.OrgUnitRoot(), ous, job.path)
    requires Grows(t.nodes, RunScript(t, job.path, job.script).nodes)
    ensures NotPut(base, linked, RunScript(t, job.path, job.script).nodes)
  {
    hide RunScript, Resolve, Locate;
    var root, r := cfg.OrgUnitRoot(), RunScript(t, job.path, job.script).nodes;
    GrowsTransitive(linked, t.nodes, r);
    ScriptPlace(t, job.path, job.script);
    if r != t.nodes {
      var k, d :| 0 <= k < |ous| && 0 <= d < |ous[k].subdirs| && job.path == root + "/" + ous[k].name + "/" + ous[k].subdirs[d].name;
      var dir, name := root + "/" + ous[k].name, ous[k].subdirs[d].name;
      MakeChild(dir, name);
      LocateParent(t.nodes, dir, name);
      assert Agrees(base, t.nodes);
      ResolveMeets(base, t.nodes, dir);
      assert NoLinkAt(base, ds[k] + "/" + name);
    }
  }

  lemma LocateParent(nodes: Nodes, dir: string, name: string)
    requires CleanName(name) && Locate(nodes, dir + "/" + name).Some?
    ensures Resolve(nodes, dir).Some? && Locate(nodes, dir + "/" + name) == Some(Resolve(nodes, dir).value + "/" + name)
  {
    hide Resolve;
    MakeChild(dir, name);
    var d := Resolve(nodes, dir).value;
    assert (dir + "/" + name)[|dir|..] == "/" + name;
    assert d + ("/" + name) == d + "/" + name;
  }

  lemma {:induction false} SubdirsNotPut(
    base: Nodes, linked: Nodes, t: Tree, cfg: Config, ous: seq<OrgUnit>, ds: seq<string>, jobs: seq<DirJob>)
    requires |ds| == |ous| && Leads(base, cfg.OrgUnitRoot(), ous, ds) && KeepsBut(base, linked, ds, |ous|)
    requires forall k, d :: 0 <= k < |ous| && 0 <= d < |ous[k].subdirs| ==>
               CleanName(ous[k].subdirs[d].name) && NoLinkAt(base, ds[k] + "/" + ous[k].subdirs[d].name)
    requires NotPut(base, linked, t.nodes) && AllForSubdirs(cfg.OrgUnitRoot(), ous, jobs)
    requires WellFormed(t.nodes) && CleanJobs(jobs)
    ensures WellFormed(RunJobs(t, jobs).nodes) && NotPut(base, linked, RunJobs(t, jobs).nodes)
  {
    hide RunScript, WellFormed, Leads, KeepsBut, NotPut, SubdirAt, NoLinkAt;
    if jobs != [] {
      var n := |jobs| - 1;
      assert CleanJobs(jobs[..n]);
      SubdirsNotPut(base, linked, t, cfg, ous, ds, jobs[..n]);
      var mid := RunJobs(t, jobs[..n]);
      ScriptAddsDirs(mid, jobs[n].path, jobs[n].script);
      AddsDirsGrows(mid.nodes, RunScript(mid, jobs[n].path, jobs[n].script).nodes);
      SubdirStep(base, linked, mid, cfg, ous, ds, jobs[n]);
    }
  }

  /** A condition on the start and the configuration under which nothing takes the place of
      a removed link. */
  lemma NothingReplaced(
    t: Tree, cfg: Config, services: seq<Service>, ous: seq<OrgUnit>, filter: Filter, ds: seq<string>, base: Nodes)
    requires LinkStart(t, cfg, services, ous, filter, ds, base) && |ds| == |ous|
    requires PlainExplicit(t.nodes, cfg, services, ds) && NoneInPlace(base, cfg, ous, ds)
    ensures LinkRun(t, cfg, services, ous, filter, ds, base)
  {
    hide Applied, AfterOuDirs, AfterLinks, WellFormed, Leads, KeepsBut, OwnersLinked, NewIn, RunJobs, SubdirJobs, RunLinkJobs, ExplicitJobs, NoLinks,
         PlainExplicit, AddsDirs, IsDestSymlink;
    RunLinks(t, cfg, services, ous, filter, ds, base);
    var linked, org, r := AfterLinks(t, cfg, services, ous, filter), AfterSubdirs(t, cfg, services, ous, filter), Applied(t, cfg, services, ous, filter);
    var root := cfg.OrgUnitRoot();
    SubdirJobsClean(root, ous);
    SubdirJobsAt(root, ous, |ous|);
    assert ous[..|ous|] == ous;
    SubdirsNotPut(base, linked.nodes, linked, cfg, ous, ds, SubdirJobs(root, ous));
    LaterStages(t, cfg, services, ous, filter);
    AppliedStages(t, cfg, services, ous, filter);
    forall m | 0 <= m < |cfg.symlinks| ensures NoLinks(org.nodes, Parent(ExplicitPath(cfg, m))) {
      PlainBefore(t, cfg, services, ous, filter, ds, base, m);
    }
    NoneBelow(t.nodes, cfg, services, ds);
    ExplicitStage(org, cfg, |cfg.symlinks|);
    assert cfg.symlinks[..|cfg.symlinks|] == cfg.symlinks;
    NoneReplaced(base, linked.nodes, org.nodes, r.nodes, cfg, ous, ds);
  }

  lemma NoneBelow(nodes: Nodes, cfg: Config, services: seq<Service>, ds: seq<string>)
    requires PlainExplicit(nodes, cfg, services, ds)
    ensures forall l, m :: 0 <= l < |cfg.symlinks| && 0 <= m < |cfg.symlinks| ==> !Below(ExplicitPath(cfg, l), ExplicitPath(cfg, m))
  {
    hide NoLinks, ExplicitPath;
    forall l, m | 0 <= l < |cfg.symlinks| && 0 <= m < |cfg.symlinks| ensures !Below(ExplicitPath(cfg, l), ExplicitPath(cfg, m)) {
      assert PlainPath(nodes, cfg, services, ds, ExplicitPath(cfg, l));
    }
  }

  lemma NoneReplaced(base: Nodes, linked: Nodes, org: Nodes, r: Nodes, cfg: Config, ous: seq<OrgUnit>, ds: seq<string>)
    requires |ds| == |ous| && NoneInPlace(base, cfg, ous, ds) && KeepsBut(base, linked, ds, |ous|)
    requires NotPut(base, linked, org) && NewExplicit(org, r, cfg, |cfg.symlinks|)
    ensures NotReplaced(base, linked, r)
  {
    hide ExplicitPath;
    forall p | p in base && p in r ensures p in linked {
      assert p in org;
    }
  }
}
