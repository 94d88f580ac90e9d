/** Parts of an apply run on any tree that concern symbolic links. */
module ApplySymlinks {
  import opened Strings
  import opened Paths
  import opened Sharing
  import opened FileSystem
  import opened PosixAcl
  import opened DirScripts
  import opened Organization
  import opened FsApply
  import opened ApplySteps
  import opened FsCheck

  // Clean paths

  ghost predicate CleanJobs(jobs: seq<DirJob>) {
    forall i :: 0 <= i < |jobs| ==> ChildOf(jobs[i].path, Parent(jobs[i].path))
  }

  lemma {:induction false} ServiceJobsClean(root: string, services: seq<Service>)
    requires forall i :: 0 <= i < |services| ==> CleanName(services[i].name)
    ensures CleanJobs(ServiceJobs(root, services))
  {
    if services != [] {
      ServiceJobsClean(root, services[..|services| - 1]);
      MakeChild(root, services[|services| - 1].name);
    }
  }

  lemma {:induction false} SouJobsClean(root: string, s: Service, ous: seq<OrgUnit>, filter: Filter)
    requires forall i :: 0 <= i < |ous| ==> CleanName(ous[i].name)
    ensures CleanJobs(SouJobs(root, s, ous, filter))
  {
    if ous != [] {
      SouJobsClean(root, s, ous[..|ous| - 1], filter);
      MakeChild(root + "/" + s.name, ous[|ous| - 1].name);
    }
  }

  lemma {:induction false} OuSubdirJobsClean(root: string, ou: OrgUnit, subdirs: seq<DirWithPolicy>)
    requires forall i :: 0 <= i < |subdirs| ==> CleanName(subdirs[i].name)
    ensures CleanJobs(OuSubdirJobs(root, ou, subdirs))
  {
    if subdirs != [] {
      OuSubdirJobsClean(root, ou, subdirs[..|subdirs| - 1]);
      MakeChild(root + "/" + ou.name, subdirs[|subdirs| - 1].name);
    }
  }

  lemma {:induction false} SubdirJobsClean(root: string, ous: seq<OrgUnit>)
    requires forall i, j :: 0 <= i < |ous| && 0 <= j < |ous[i].subdirs| ==> CleanName(ous[i].subdirs[j].name)
    ensures CleanJobs(SubdirJobs(root, ous))
  {
    if ous != [] {
      var n := |ous| - 1;
      SubdirJobsClean(root, ous[..n]);
      OuSubdirJobsClean(root, ous[n], ous[n].subdirs);
    }
  }

  lemma AbsIsKey(p: string)
    requires AbsPath(p)
    ensures KeyPath(p)
  {
  }

  lemma KeyJoin(root: string, p: string)
    requires KeyPath(root) && RelPath(p)
    ensures KeyPath(root + "/" + p) && root + "/" + p != ""
  {
    SplitJoin2(root, p, '/');
    assert root + ['/'] + p == root + "/" + p;
    assert (Parts(root) + Parts(p))[1..] == Parts(root)[1..] + Parts(p);
    if root != "" { assert (root + "/" + p)[0] == root[0]; }
  }

  lemma {:induction false} ExplicitJobAt(root: string, links: seq<ExplicitLink>, i: nat)
    requires i < |links|
    ensures |ExplicitJobs(root, links)| == |links|
    ensures ExplicitJobs(root, links)[i] == LinkJob(root + "/" + links[i].path, links[i].target)
  {
    var n := |links| - 1;
    if n > 0 { ExplicitJobAt(root, links[..n], if i < n then i else 0); }
  }

  lemma ExplicitClean(root: string, links: seq<ExplicitLink>)
    requires KeyPath(root) && forall i :: 0 <= i < |links| ==> RelPath(links[i].path)
    ensures var jobs := ExplicitJobs(root, links);
            |jobs| == |links| && forall i :: 0 <= i < |jobs| ==>
              ChildOf(jobs[i].path, Parent(jobs[i].path)) && jobs[i] == LinkJob(root + "/" + links[i].path, links[i].target)
  {
    hide KeyPath, RelPath, ChildOf, ExplicitJobs;
    var jobs := ExplicitJobs(root, links);
    NoExplicitJobs(root);
    if links != [] { ExplicitJobAt(root, links, 0); }
    forall i | 0 <= i < |links|
      ensures ChildOf(jobs[i].path, Parent(jobs[i].path)) && jobs[i] == LinkJob(root + "/" + links[i].path, links[i].target)
    {
      ExplicitJobAt(root, links, i);
      KeyJoin(root, links[i].path);
      KeyParent(root + "/" + links[i].path);
    }
  }

  lemma NoExplicitJobs(root: string)
    ensures ExplicitJobs(root, []) == []
  {
  }

  // No step of the service tree makes a link

  ghost predicate NoNewLinks(n0: Nodes, n1: Nodes) {
    forall p :: p in n1 && n1[p].Link? ==> p in n0 && n0[p].Link?
  }

  lemma NoLinksStays(n0: Nodes, n1: Nodes, p: string)
    requires NoNewLinks(n0, n1) && NoLinks(n0, p)
    ensures NoLinks(n1, p)
  {
  }

  lemma ServiceSubdirsNoNewLinks(t: Tree, root: string, s: Service, ous: seq<OrgUnit>, filter: Filter)
    requires WellFormed(t.nodes) && forall i :: 0 <= i < |ous| ==> CleanName(ous[i].name)
    ensures var r := ServiceSubdirs(t, root, s, ous, filter);
            WellFormed(r.nodes) && NoNewLinks(t.nodes, r.nodes) && (!r.err ==> !t.err)
  {
    hide RunJobs, RmUnexpected, Resolve, WellFormed;
    SouJobsClean(root, s, ous, filter);
    JobsAddDirs(t, SouJobs(root, s, ous, filter));
    RmUnexpectedSpec(RunJobs(t, SouJobs(root, s, ous, filter)), root + "/" + s.name, AcceptedOus(s, ous, filter), false);
  }

  lemma {:induction false} ServicesNoNewLinks(t: Tree, root: string, services: seq<Service>, ous: seq<OrgUnit>, filter: Filter)
    requires WellFormed(t.nodes) && forall i :: 0 <= i < |ous| ==> CleanName(ous[i].name)
    ensures var r := ServiceOrgUnitDirs(t, root, services, ous, filter);
            WellFormed(r.nodes) && NoNewLinks(t.nodes, r.nodes) && (!r.err ==> !t.err)
  {
    hide ServiceSubdirs, WellFormed;
    if services != [] {
      var n := |services| - 1;
      ServicesNoNewLinks(t, root, services[..n], ous, filter);
      ServiceSubdirsNoNewLinks(ServiceOrgUnitDirs(t, root, services[..n], ous, filter), root, services[n], ous, filter);
    }
  }

  lemma ServicePartNoNewLinks(t: Tree, cfg: Config, services: seq<Service>, ous: seq<OrgUnit>, filter: Filter)
    requires WellFormed(t.nodes) && cfg.Valid() && CleanOrg(services, ous)
    ensures var r := ServicePart(t, cfg, services, ous, filter);
            WellFormed(r.nodes) && NoNewLinks(t.nodes, r.nodes) && (!r.err ==> !t.err)
  {
    hide RunScript, RunJobs, ServiceOrgUnitDirs, WellFormed;
    MakeChild(cfg.rootdir, cfg.serviceDir);
    ScriptAddsDirs(t, cfg.ServiceRoot(), ToplevelSh);
    ScriptErr(t, cfg.ServiceRoot(), ToplevelSh);
    var top := RunScript(t, cfg.ServiceRoot(), ToplevelSh);
    ServiceJobsClean(cfg.ServiceRoot(), services);
    JobsAddDirs(top, ServiceJobs(cfg.ServiceRoot(), services));
    ServicesNoNewLinks(RunJobs(top, ServiceJobs(cfg.ServiceRoot(), services)), cfg.ServiceRoot(), services, ous, filter);
  }

  // Org unit directories

  ghost predicate OuDirsThere(nodes: Nodes, root: string, ous: seq<OrgUnit>) {
    forall i :: 0 <= i < |ous| ==> IsDir(nodes, root + "/" + ous[i].name)
  }

  lemma {:induction false} OuDirsStage(t: Tree, root: string, ous: seq<OrgUnit>)
    requires WellFormed(t.nodes) && KeyPath(root)
    requires forall i :: 0 <= i < |ous| ==> CleanName(ous[i].name) && NoLinks(t.nodes, root + "/" + ous[i].name)
    ensures var r := RunJobs(t, OrgUnitJobs(root, ous));
            WellFormed(r.nodes) && AddsDirs(t.nodes, r.nodes) && (!r.err ==> !t.err && OuDirsThere(r.nodes, root, ous))
  {
    hide RunScript, WellFormed, NoLinks, AddsDirs, OuDirsThere;
    if ous == [] {
      NoOus(t.nodes, root);
    } else {
      var n := |ous| - 1;
      forall i | 0 <= i < n ensures CleanName(ous[..n][i].name) && NoLinks(t.nodes, root + "/" + ous[..n][i].name) {
        assert ous[..n][i] == ous[i];
      }
      OuDirsStage(t, root, ous[..n]);
      var mid := RunJobs(t, OrgUnitJobs(root, ous[..n]));
      var job := OrgUnitJob(root, ous[n]);
      RunOneMore(t, OrgUnitJobs(root, ous[..n]), job);
      OuDirMade(t.nodes, mid, root, ous[n]);
      if !RunScript(mid, job.path, job.script).err {
        OuDirsOneMore(mid.nodes, RunScript(mid, job.path, job.script).nodes, root, ous);
      }
    }
  }

  lemma NoOus(nodes: Nodes, root: string)
    ensures OuDirsThere(nodes, root, []) && AddsDirs(nodes, nodes)
  {
  }

  lemma OuDirsOneMore(n0: Nodes, n1: Nodes, root: string, ous: seq<OrgUnit>)
    requires ous != [] && OuDirsThere(n0, root, ous[..|ous| - 1]) && AddsDirs(n0, n1)
    requires IsDir(n1, root + "/" + ous[|ous| - 1].name)
    ensures OuDirsThere(n1, root, ous)
  {
    var n := |ous| - 1;
    forall i | 0 <= i < |ous| ensures IsDir(n1, root + "/" + ous[i].name) {
      if i < n { assert ous[..n][i] == ous[i]; }
    }
  }

  lemma NoLinksAbove(nodes: Nodes, root: string, n: string)
    requires NoLinks(nodes, root + "/" + n) && CleanName(n)
    ensures NoLinks(nodes, root) && (root + "/" + n in nodes ==> !nodes[root + "/" + n].Link?)
  {
    MakeChild(root, n);
    forall q | q in nodes && Below(root, q) ensures !nodes[q].Link? {
      BelowTransitive(root + "/" + n, root, q);
    }
  }

  lemma OuDirMade(n0: Nodes, t: Tree, root: string, ou: OrgUnit)
    requires WellFormed(t.nodes) && AddsDirs(n0, t.nodes)
    requires KeyPath(root) && CleanName(ou.name) && NoLinks(n0, root + "/" + ou.name)
    ensures var r := RunScript(t, OrgUnitJob(root, ou).path, OrgUnitJob(root, ou).script);
            && WellFormed(r.nodes) && AddsDirs(n0, r.nodes) && AddsDirs(t.nodes, r.nodes)
            && (!r.err ==> !t.err && IsDir(r.nodes, root + "/" + ou.name))
  {
    hide RunScript, WellFormed, NoLinks;
    var path := root + "/" + ou.name;
    MakeChild(root, ou.name);
    NoLinksStays(n0, t.nodes, path);
    NoLinksAbove(t.nodes, root, ou.name);
    ScriptErr(t, path, OrgUnitSh(ou.orgUnitGroup.gid));
    ScriptAddsDirs(t, path, OrgUnitSh(ou.orgUnitGroup.gid));
    if !t.err { ScriptPlain(t, root, ou.name, OrgUnitSh(ou.orgUnitGroup.gid)); }
  }

  // Lists of entries and their checks

  ghost predicate DistinctOus(ous: seq<OrgUnit>) {
    forall i, j :: 0 <= i < j < |ous| ==> ous[i].name != ous[j].name
  }

  lemma LinksPassConcat(nodes: Nodes, a: seq<Entry>, b: seq<Entry>)
    ensures LinksPass(nodes, a + b) <==> LinksPass(nodes, a) && LinksPass(nodes, b)
  {
    hide IsDestSymlink;
    var ab := a + b;
    assert forall i :: 0 <= i < |a| ==> ab[i] == a[i];
    assert forall i :: 0 <= i < |b| ==> ab[|a| + i] == b[i];
    if LinksPass(nodes, a) && LinksPass(nodes, b) {
      forall i | 0 <= i < |ab| && ab[i].LinkEntry? ensures IsDestSymlink(nodes, ab[i].dest, ab[i].path) {
        if i < |a| { assert ab[i] == a[i]; } else { assert ab[i] == b[i - |a|]; }
      }
    }
  }

  lemma NoEntriesPass(nodes: Nodes)
    ensures LinksPass(nodes, [])
  {
  }

  ghost predicate OnlyDirs(entries: seq<Entry>) {
    forall i :: 0 <= i < |entries| ==> entries[i].DirEntry?
  }

  lemma {:induction false} ServiceDirsAreDirs(root: string, services: seq<Service>)
    ensures OnlyDirs(ServiceDirs(root, services))
  {
    if services != [] { ServiceDirsAreDirs(root, services[..|services| - 1]); }
  }

  lemma {:induction false} SouDirsAreDirs(root: string, s: Service, ous: seq<OrgUnit>, filter: Filter)
    ensures OnlyDirs(SouDirs(root, s, ous, filter))
  {
    if ous != [] { SouDirsAreDirs(root, s, ous[..|ous| - 1], filter); }
  }

  lemma {:induction false} AllSouDirsAreDirs(root: string, services: seq<Service>, ous: seq<OrgUnit>, filter: Filter)
    ensures OnlyDirs(AllSouDirs(root, services, ous, filter))
  {
    if services != [] {
      AllSouDirsAreDirs(root, services[..|services| - 1], ous, filter);
      SouDirsAreDirs(root, services[|services| - 1], ous, filter);
    }
  }

  lemma {:induction false} OrgUnitDirsAreDirs(root: string, ous: seq<OrgUnit>)
    ensures OnlyDirs(OrgUnitDirs(root, ous))
  {
    if ous != [] { OrgUnitDirsAreDirs(root, ous[..|ous| - 1]); }
  }

  lemma {:induction false} OuSubdirsAreDirs(root: string, ou: OrgUnit, subdirs: seq<DirWithPolicy>)
    ensures OnlyDirs(OuSubdirs(root, ou, subdirs))
  {
    if subdirs != [] { OuSubdirsAreDirs(root, ou, subdirs[..|subdirs| - 1]); }
  }

  lemma {:induction false} AllSubdirsAreDirs(root: string, ous: seq<OrgUnit>)
    ensures OnlyDirs(AllSubdirs(root, ous))
  {
    if ous != [] {
      AllSubdirsAreDirs(root, ous[..|ous| - 1]);
      OuSubdirsAreDirs(root, ous[|ous| - 1], ous[|ous| - 1].subdirs);
    }
  }

  lemma DirsPass(nodes: Nodes, entries: seq<Entry>)
    requires OnlyDirs(entries)
    ensures LinksPass(nodes, entries)
  {
  }

  /** The link check of all entries is that of the service links. */
  lemma EntryLinksPass(nodes: Nodes, cfg: Config, services: seq<Service>, ous: seq<OrgUnit>, filter: Filter)
    ensures LinksPass(nodes, FsCheck.Entries(cfg, services, ous, filter)) <==>
            LinksPass(nodes, AllOuLinks(cfg.OrgUnitRoot(), cfg.serviceDir, ous, services, filter))
  {
    ServiceDirsAreDirs(cfg.ServiceRoot(), services);
    AllSouDirsAreDirs(cfg.ServiceRoot(), services, ous, filter);
    OrgUnitDirsAreDirs(cfg.OrgUnitRoot(), ous);
    AllSubdirsAreDirs(cfg.OrgUnitRoot(), ous);
    hide LinksPass;
    var dirs := [DirEntry(cfg.rootdir, Toplevel), DirEntry(cfg.ServiceRoot(), Toplevel), DirEntry(cfg.OrgUnitRoot(), Toplevel)] +
      ServiceDirs(cfg.ServiceRoot(), services) + AllSouDirs(cfg.ServiceRoot(), services, ous, filter) +
      OrgUnitDirs(cfg.OrgUnitRoot(), ous);
    assert OnlyDirs(dirs);
    DirsPass(nodes, dirs);
    DirsPass(nodes, AllSubdirs(cfg.OrgUnitRoot(), ous));
    LinksPassConcat(nodes, dirs, AllOuLinks(cfg.OrgUnitRoot(), cfg.serviceDir, ous, services, filter));
    LinksPassConcat(nodes, dirs + AllOuLinks(cfg.OrgUnitRoot(), cfg.serviceDir, ous, services, filter),
      AllSubdirs(cfg.OrgUnitRoot(), ous));
  }

  lemma {:induction false} ExplicitMapPasses(nodes: Nodes, root: string, links: seq<ExplicitLink>)
    requires forall i :: 0 <= i < |links| ==> IsDestSymlink(nodes, links[i].target, root + "/" + links[i].path)
    ensures ExplicitPass(nodes, ExplicitMap(root, links))
  {
    hide IsDestSymlink;
    if links != [] { ExplicitMapPasses(nodes, root, links[..|links| - 1]); }
  }

  // An org unit directory that is a link to another one

  lemma ResolveAlias(nodes: Nodes, root: string, a: string, b: string)
    requires WellFormed(nodes) && KeyPath(root) && CleanName(a) && CleanName(b)
    requires root + "/" + a in nodes && nodes[root + "/" + a] == Link(b) && IsDir(nodes, root + "/" + b)
    ensures Resolve(nodes, root + "/" + a) == Some(root + "/" + b)
  {
    hide Walk, WellFormed, Split, Descend;
    MakeChild(root, a);
    MakeChild(root, b);
    RootAbove(nodes, root, b);
    DescendParts(root);
    KeyChild(root, a);
    WalkDown(nodes, "", Parts(root)[1..], [a], MAX_LINKS);
    SplitPlain(b, '/');
    FollowAlias(nodes, root, a, b);
  }

  lemma RootAbove(nodes: Nodes, root: string, b: string)
    requires WellFormed(nodes) && CleanName(b) && root + "/" + b in nodes
    ensures IsDir(nodes, root)
  {
    MakeChild(root, b);
  }

  lemma FollowAlias(nodes: Nodes, root: string, a: string, b: string)
    requires IsDir(nodes, root) && CleanName(a) && CleanName(b) && Parts(b) == [b]
    requires root + "/" + a in nodes && nodes[root + "/" + a] == Link(b) && IsDir(nodes, root + "/" + b)
    ensures Walk(nodes, root, [a], MAX_LINKS) == Some(root + "/" + b)
  {
    assert b[0] != '/';
    assert [a][1..] == [] && [b] + [] == [b] && [b][1..] == [];
    assert Walk(nodes, root, [b], MAX_LINKS - 1) == Walk(nodes, root + "/" + b, [], MAX_LINKS - 1);
  }
}
