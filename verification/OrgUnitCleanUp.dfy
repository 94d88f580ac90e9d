/** What an apply run leaves below the directories of the org units. */
module OrgUnitCleanUp {
  import opened Strings
  import opened Paths
  import opened Sharing
  import opened FileSystem
  import opened PosixAcl
  import opened DirScripts
  import opened Organization
  import opened FsApply
  import opened ApplySteps
  import opened ApplySymlinks
  import opened ApplyLinks
  import opened ServiceCleanUp
  import opened AppliedAcls

  ghost predicate NamesSubdir(ou: OrgUnit, n: string) {
    exists k :: 0 <= k < |ou.subdirs| && ou.subdirs[k].name == n
  }

  /** Directly in the directory of an org unit, a run leaves the link of every service that the
      org unit uses; other links are gone; directories and files stay. New are at most additional
      directories of the org unit and explicit links. */
  ghost predicate OuChildAfter(n0: Nodes, r: Nodes, cfg: Config, ou: OrgUnit, services: seq<Service>, filter: Filter, n: string) {
    var p := cfg.OrgUnitRoot() + "/" + ou.name + "/" + n;
    && (forall i :: 0 <= i < |services| && filter(services[i], ou) && services[i].name == n ==>
          p in r && r[p] == Link(LinkDest(cfg.serviceDir, ou, services[i])))
    && (n !in AcceptedServices(services, ou, filter) ==>
          if p in n0 && !n0[p].Link? then p in r && r[p] == n0[p]
          else p in r ==> (r[p] == Dir && NamesSubdir(ou, n)) || ExplicitAt(r, cfg, p))
  }

  lemma Untouched(n0: Nodes, srv: Nodes, made: Nodes, cfg: Config, ous: seq<OrgUnit>, j: nat, n: string)
    requires cfg.Valid() && j < |ous| && (forall m :: 0 <= m < |ous| ==> CleanName(ous[m].name)) && CleanName(n)
    requires forall q :: q != cfg.ServiceRoot() && !Below(q, cfg.ServiceRoot()) ==> SameAt(n0, srv, q)
    requires OnlyOuDirs(srv, made, cfg.OrgUnitRoot(), ous)
    ensures SameAt(n0, made, cfg.OrgUnitRoot() + "/" + ous[j].name + "/" + n)
  {
    var root, d := cfg.OrgUnitRoot(), cfg.OrgUnitRoot() + "/" + ous[j].name;
    var p := d + "/" + n;
    NotInServiceTree(cfg, ous[j].name, n);
    MakeChild(d, n);
    MakeChild(root, ous[j].name);
    forall m | 0 <= m < |ous| ensures p != root + "/" + ous[m].name {
      TopAway(root, ous[m].name, ous[j].name, p);
    }
  }

  lemma NotInServiceTree(cfg: Config, a: string, n: string)
    requires cfg.Valid() && CleanName(a) && CleanName(n)
    ensures var p := cfg.OrgUnitRoot() + "/" + a + "/" + n; p != cfg.ServiceRoot() && !Below(p, cfg.ServiceRoot())
  {
    var d := cfg.OrgUnitRoot() + "/" + a;
    MakeChild(d, n);
    MakeChild(cfg.OrgUnitRoot(), a);
    MakeChild(cfg.rootdir, cfg.orgUnitDir);
    BelowTransitive(d + "/" + n, d, cfg.OrgUnitRoot());
    if d + "/" + n == cfg.ServiceRoot() || Below(d + "/" + n, cfg.ServiceRoot()) {
      UnderOne(d + "/" + n, d + "/" + n, cfg.rootdir, cfg.serviceDir, cfg.orgUnitDir);
    }
  }

  lemma SubdirMade(linked: Nodes, org: Nodes, root: string, ous: seq<OrgUnit>, j: nat, n: string)
    requires DistinctOus(ous) && CleanSubdirs(ous) && j < |ous| && CleanName(n) && NewAt(linked, org, SubdirJobs(root, ous))
    ensures var p := root + "/" + ous[j].name + "/" + n;
            && (p in linked ==> p in org && org[p] == linked[p])
            && (p in org && p !in linked ==> org[p] == Dir && NamesSubdir(ous[j], n))
  {
    hide SubdirJobs, SubdirScript;
    var p, js := root + "/" + ous[j].name + "/" + n, SubdirJobs(root, ous);
    if p in org && p !in linked {
      var m :| 0 <= m < |js| && p == js[m].path;
      var a, b := SubdirAt(root, ous, m);
      MakeChild(root + "/" + ous[j].name, n);
      MakeChild(root + "/" + ous[a].name, ous[a].subdirs[b].name);
      OneParent(p, root + "/" + ous[j].name, root + "/" + ous[a].name);
      SameName(root, ous[j].name, ous[a].name);
      SameName(root + "/" + ous[j].name, n, ous[a].subdirs[b].name);
    }
  }

  lemma OuChild(
    n0: Nodes, made: Nodes, linked: Nodes, org: Nodes, r: Nodes, cfg: Config, services: seq<Service>, ous: seq<OrgUnit>, filter: Filter, j: nat,
    n: string)
    requires j < |ous| && CleanName(n) && DistinctOus(ous) && CleanSubdirs(ous)
    requires SameAt(n0, made, cfg.OrgUnitRoot() + "/" + ous[j].name + "/" + n)
    requires LinksOnly(made, linked, cfg.OrgUnitRoot(), services, ous, filter)
    requires OuLinked(linked, cfg.OrgUnitRoot() + "/" + ous[j].name, cfg.serviceDir, ous[j], services, filter)
    requires NewAt(linked, org, SubdirJobs(cfg.OrgUnitRoot(), ous)) && Grows(org, r)
    requires forall q :: q in r && q !in org ==> ExplicitAt(r, cfg, q)
    ensures OuChildAfter(n0, r, cfg, ous[j], services, filter, n)
  {
    hide SubdirJobs, LinkDest, ExplicitAt, NamesSubdir, NewAt, CleanSubdirs, DistinctOus, AcceptedServices;
    var d := cfg.OrgUnitRoot() + "/" + ous[j].name;
    MakeChild(d, n);
    assert (d + "/" + n)[|d| + 1..] == n;
    SubdirMade(linked, org, cfg.OrgUnitRoot(), ous, j, n);
  }

  /** From any tree in which the managed directories are reached through no link, that is what a
      run without error leaves in every org unit's directory. */
  lemma AppliedCleansOrgUnits(t: Tree, cfg: Config, services: seq<Service>, ous: seq<OrgUnit>, filter: Filter)
    requires WellFormed(t.nodes) && OwnNames(cfg, services, ous) && NamesApart(services, ous, filter)
    requires PlainServiceTree(t.nodes, cfg.ServiceRoot(), services, ous, filter) && PlainOuTree(t.nodes, cfg.OrgUnitRoot(), ous)
    requires !Applied(t, cfg, services, ous, filter).err
    ensures forall j, n :: 0 <= j < |ous| && CleanName(n) ==>
              OuChildAfter(t.nodes, Applied(t, cfg, services, ous, filter).nodes, cfg, ous[j], services, filter, n)
  {
    hide WellFormed, NoLinks, Applied, AfterOuDirs, AfterLinks, AfterSubdirs, ServicePart, SubdirJobs, Waiting, Progress, NewAt, OnlyOuDirs, LinksOnly,
         OuLinked, NamesApart, CleanSubdirs, OuChildAfter, ExplicitAt, IsDestSymlink, ExplicitJobs, SameAt, PlainServiceTree, PlainOuTree, DistinctOus,
         DistinctServices, RunLinkJobs;
    var srv, made := ServicePart(t, cfg, services, ous, filter), AfterOuDirs(t, cfg, services, ous, filter);
    var linked, org, r := AfterLinks(t, cfg, services, ous, filter), AfterSubdirs(t, cfg, services, ous, filter), Applied(t, cfg, services, ous, filter);
    RunStages(t, cfg, services, ous, filter);
    assert PlainOuTree(t.nodes, cfg.OrgUnitRoot(), ous);
    BeforeLinks(t, cfg, services, ous, filter);
    LinkStageFrame(t, cfg, services, ous, filter);
    AfterAllJobs(t, cfg, services, ous, filter);
    LaterStages(t, cfg, services, ous, filter);
    AppliedStages(t, cfg, services, ous, filter);
    ServicePartFrame(t, cfg, services, ous, filter);
    forall q | q in r.nodes && q !in org.nodes ensures ExplicitAt(r.nodes, cfg, q) {
      ExplicitNew(org, cfg, q);
    }
    forall j, n | 0 <= j < |ous| && CleanName(n) ensures OuChildAfter(t.nodes, r.nodes, cfg, ous[j], services, filter, n) {
      Untouched(t.nodes, srv.nodes, made.nodes, cfg, ous, j, n);
      OuChild(t.nodes, made.nodes, linked.nodes, org.nodes, r.nodes, cfg, services, ous, filter, j, n);
    }
  }
}
