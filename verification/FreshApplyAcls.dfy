/** An apply run below an empty root directory: it cannot fail before the explicit links,
    and every directory ends with exactly the ACL that the checker expects. */
module FreshApplyAcls {
  import opened Strings
  import opened Paths
  import opened Sharing
  import opened FileSystem
  import opened PosixAcl
  import opened DirScripts
  import opened Organization
  import opened FsApply
  import opened ApplySteps
  import opened FsckAcl
  import opened ScriptsMeetCheck
  import opened FreshScripts
  import opened FsCheck
  import opened ApplySymlinks
  import opened ApplyLinks
  import opened FreshApply
  import Reachability

  // What belongs at a path

  function FindService(services: seq<Service>, name: string): Option<Service> {
    if services == [] then None
    else if services[0].name == name then Some(services[0])
    else FindService(services[1..], name)
  }

  function FindOu(ous: seq<OrgUnit>, name: string): Option<OrgUnit> {
    if ous == [] then None
    else if ous[0].name == name then Some(ous[0])
    else FindOu(ous[1..], name)
  }

  function FindSubdir(subdirs: seq<DirWithPolicy>, name: string): Option<DirWithPolicy> {
    if subdirs == [] then None
    else if subdirs[0].name == name then Some(subdirs[0])
    else FindSubdir(subdirs[1..], name)
  }

  ghost predicate DistinctSubdirs(ou: OrgUnit) {
    forall i, j :: 0 <= i < j < |ou.subdirs| ==> ou.subdirs[i].name != ou.subdirs[j].name
  }

  lemma {:induction false} ServiceFound(services: seq<Service>, i: nat)
    requires i < |services| && DistinctServices(services)
    ensures FindService(services, services[i].name) == Some(services[i])
  {
    if i > 0 {
      assert services[0].name != services[i].name;
      ServiceFound(services[1..], i - 1);
    }
  }

  lemma {:induction false} OuFound(ous: seq<OrgUnit>, i: nat)
    requires i < |ous| && DistinctOus(ous)
    ensures FindOu(ous, ous[i].name) == Some(ous[i])
  {
    if i > 0 {
      assert ous[0].name != ous[i].name;
      OuFound(ous[1..], i - 1);
    }
  }

  lemma {:induction false} SubdirFound(subdirs: seq<DirWithPolicy>, i: nat)
    requires i < |subdirs| && forall k, j :: 0 <= k < j < |subdirs| ==> subdirs[k].name != subdirs[j].name
    ensures FindSubdir(subdirs, subdirs[i].name) == Some(subdirs[i])
  {
    if i > 0 {
      assert subdirs[0].name != subdirs[i].name;
      SubdirFound(subdirs[1..], i - 1);
    }
  }

  function Base(p: string): string {
    if |Parent(p)| + 1 <= |p| then p[|Parent(p)| + 1..] else ""
  }

  lemma BaseOf(d: string, n: string)
    requires CleanName(n)
    ensures Parent(d + "/" + n) == d && Base(d + "/" + n) == n
  {
    MakeChild(d, n);
    assert (d + "/" + n)[|d| + 1..] == n;
  }

  /** Everything that fixes which script and which link belongs where. */
  datatype World = World(cfg: Config, services: seq<Service>, ous: seq<OrgUnit>, filter: Filter) {
    /** Names are clean and distinct, gids differ where the scripts need it, and no
        additional directory of an org unit has the name of one of its services. */
    ghost predicate Valid() {
      && cfg.Valid() && CleanOrg(services, ous)
      && DistinctServices(services) && DistinctOus(ous)
      && (forall i :: 0 <= i < |ous| ==> DistinctSubdirs(ous[i]))
      && (forall i :: 0 <= i < |services| ==> DistinctGids(ServiceScript(services[i])))
      && (forall i, j :: 0 <= i < |services| && 0 <= j < |ous| && filter(services[i], ous[j]) ==>
            DistinctGids(SouJob("", services[i], ous[j]).script))
      && (forall i, j, k :: 0 <= i < |services| && 0 <= j < |ous| && filter(services[i], ous[j]) && 0 <= k < |ous[j].subdirs| ==>
            ous[j].subdirs[k].name != services[i].name)
    }

    function Dirs(): set<string> {
      DirPaths(cfg, services, ous, filter)
    }

    function Links(): set<string> {
      LinkPaths(cfg.OrgUnitRoot(), services, ous, filter)
    }

    /** The script for the directory at `p`. */
    function ScriptAt(p: string): DirScript {
      var d, n := Parent(p), Base(p);
      if p == cfg.rootdir || d == cfg.rootdir then ToplevelSh
      else if d == cfg.ServiceRoot() then
        match FindService(services, n) case Some(s) => ServiceScript(s) case None => ToplevelSh
      else if d == cfg.OrgUnitRoot() then
        match FindOu(ous, n) case Some(ou) => OrgUnitSh(ou.orgUnitGroup.gid) case None => ToplevelSh
      else if Parent(d) == cfg.ServiceRoot() then
        match (FindService(services, Base(d)), FindOu(ous, n))
        case (Some(s), Some(ou)) => SouJob("", s, ou).script
        case _ => ToplevelSh
      else
        match FindOu(ous, Base(d))
        case None => ToplevelSh
        case Some(ou) =>
          match FindSubdir(ou.subdirs, n)
          case Some(sub) => SubdirScript(ou.orgUnitGroup.gid, sub.policy)
          case None => ToplevelSh
    }

    /** The target of the link at `p`. */
    function DestAt(p: string): string {
      match (FindOu(ous, Base(Parent(p))), FindService(services, Base(p)))
      case (Some(ou), Some(s)) => ServiceLinkJob("", cfg.serviceDir, ou, s).dest
      case _ => ""
    }
  }

  // Every job is the one that belongs at its path

  lemma TopScripts(w: World)
    requires w.Valid()
    ensures w.ScriptAt(w.cfg.rootdir) == ToplevelSh
    ensures w.ScriptAt(w.cfg.ServiceRoot()) == ToplevelSh && Parent(w.cfg.ServiceRoot()) == w.cfg.rootdir
    ensures w.ScriptAt(w.cfg.OrgUnitRoot()) == ToplevelSh && Parent(w.cfg.OrgUnitRoot()) == w.cfg.rootdir
    ensures w.cfg.ServiceRoot() != w.cfg.OrgUnitRoot()
  {
    BaseOf(w.cfg.rootdir, w.cfg.serviceDir);
    BaseOf(w.cfg.rootdir, w.cfg.orgUnitDir);
  }

  lemma ServiceScriptAt(w: World, i: nat)
    requires w.Valid() && i < |w.services|
    ensures var p := w.cfg.ServiceRoot() + "/" + w.services[i].name;
            w.ScriptAt(p) == ServiceScript(w.services[i]) && Parent(p) == w.cfg.ServiceRoot() && Base(p) == w.services[i].name
  {
    ServiceFound(w.services, i);
    BaseOf(w.cfg.ServiceRoot(), w.services[i].name);
  }

  lemma OuScriptAt(w: World, j: nat)
    requires w.Valid() && j < |w.ous|
    ensures var p := w.cfg.OrgUnitRoot() + "/" + w.ous[j].name;
            w.ScriptAt(p) == OrgUnitSh(w.ous[j].orgUnitGroup.gid) && Parent(p) == w.cfg.OrgUnitRoot() && Base(p) == w.ous[j].name
  {
    OuFound(w.ous, j);
    BaseOf(w.cfg.OrgUnitRoot(), w.ous[j].name);
    TopScripts(w);
  }

  /** Paths two levels below a top directory differ from those above. */
  lemma DeepParent(w: World, top: string, d: string, n: string)
    requires w.Valid() && (top == w.cfg.ServiceRoot() || top == w.cfg.OrgUnitRoot()) && CleanName(d) && CleanName(n)
    ensures var p := top + "/" + d + "/" + n;
            && Parent(p) == top + "/" + d && Base(p) == n && Parent(Parent(p)) == top && Base(Parent(p)) == d
            && p != w.cfg.rootdir && Parent(p) != w.cfg.rootdir
            && Parent(p) != w.cfg.ServiceRoot() && Parent(p) != w.cfg.OrgUnitRoot()
  {
    BaseOf(top, d);
    BaseOf(top + "/" + d, n);
    TopScripts(w);
  }

  lemma SouScriptAt(w: World, i: nat, j: nat)
    requires w.Valid() && i < |w.services| && j < |w.ous|
    ensures var job := SouJob(w.cfg.ServiceRoot(), w.services[i], w.ous[j]);
            w.ScriptAt(job.path) == job.script && Parent(job.path) == w.cfg.ServiceRoot() + "/" + w.services[i].name
  {
    ServiceFound(w.services, i);
    OuFound(w.ous, j);
    DeepParent(w, w.cfg.ServiceRoot(), w.services[i].name, w.ous[j].name);
  }

  lemma SubdirScriptAt(w: World, j: nat, k: nat)
    requires w.Valid() && j < |w.ous| && k < |w.ous[j].subdirs|
    ensures var job := SubdirJob(w.cfg.OrgUnitRoot(), w.ous[j], w.ous[j].subdirs[k]);
            w.ScriptAt(job.path) == job.script && Parent(job.path) == w.cfg.OrgUnitRoot() + "/" + w.ous[j].name
  {
    OuFound(w.ous, j);
    SubdirFound(w.ous[j].subdirs, k);
    DeepParent(w, w.cfg.OrgUnitRoot(), w.ous[j].name, w.ous[j].subdirs[k].name);
    TopScripts(w);
  }

  lemma DestAtLink(w: World, i: nat, j: nat)
    requires w.Valid() && i < |w.services| && j < |w.ous|
    ensures var job := ServiceLinkJob(w.cfg.OrgUnitRoot(), w.cfg.serviceDir, w.ous[j], w.services[i]);
            w.DestAt(job.path) == job.dest
  {
    hide Join;
    ServiceFound(w.services, i);
    OuFound(w.ous, j);
    DeepParent(w, w.cfg.OrgUnitRoot(), w.ous[j].name, w.services[i].name);
  }

  // Directories never coincide with links

  lemma DirsAreNotLinks(w: World, p: string)
    requires w.Valid() && p in w.Dirs()
    ensures p !in w.Links()
  {
    hide World.ScriptAt;
    if p in w.Links() {
      var o := w.cfg.OrgUnitRoot();
      var i, j :| 0 <= i < |w.services| && 0 <= j < |w.ous| && w.filter(w.services[i], w.ous[j]) &&
        p == o + "/" + w.ous[j].name + "/" + w.services[i].name;
      DeepParent(w, o, w.ous[j].name, w.services[i].name);
      NotUpper(w, p);
      if p in SouPaths(w.cfg.ServiceRoot(), w.services, w.ous, w.filter) {
        SouParent(w, p);
      } else {
        assert p in SubdirPaths(o, w.ous);
        var m, k :| 0 <= m < |w.ous| && 0 <= k < |w.ous[m].subdirs| && p == o + "/" + w.ous[m].name + "/" + w.ous[m].subdirs[k].name;
        DeepParent(w, o, w.ous[m].name, w.ous[m].subdirs[k].name);
        OuFound(w.ous, m);
        OuFound(w.ous, j);
      }
    }
  }

  lemma SouParent(w: World, p: string)
    requires w.Valid() && p in SouPaths(w.cfg.ServiceRoot(), w.services, w.ous, w.filter)
    ensures Parent(Parent(p)) == w.cfg.ServiceRoot() && w.cfg.ServiceRoot() != w.cfg.OrgUnitRoot()
  {
    hide World.ScriptAt;
    var i, j :| 0 <= i < |w.services| && 0 <= j < |w.ous| && w.filter(w.services[i], w.ous[j]) &&
      p == w.cfg.ServiceRoot() + "/" + w.services[i].name + "/" + w.ous[j].name;
    DeepParent(w, w.cfg.ServiceRoot(), w.services[i].name, w.ous[j].name);
    TopScripts(w);
  }

  /** A path whose parent is none of the three toplevel directories is two deep. */
  lemma NotUpper(w: World, p: string)
    requires w.Valid() && p in w.Dirs()
    requires Parent(p) != w.cfg.rootdir && Parent(p) != w.cfg.ServiceRoot() && Parent(p) != w.cfg.OrgUnitRoot()
    ensures p in SouPaths(w.cfg.ServiceRoot(), w.services, w.ous, w.filter) || p in SubdirPaths(w.cfg.OrgUnitRoot(), w.ous)
  {
    hide World.ScriptAt;
    TopScripts(w);
    if p in ServicePaths(w.cfg.ServiceRoot(), w.services) {
      var i :| 0 <= i < |w.services| && p == w.cfg.ServiceRoot() + "/" + w.services[i].name;
      BaseOf(w.cfg.ServiceRoot(), w.services[i].name);
    }
    if p in OuPaths(w.cfg.OrgUnitRoot(), w.ous) {
      var j :| 0 <= j < |w.ous| && p == w.cfg.OrgUnitRoot() + "/" + w.ous[j].name;
      BaseOf(w.cfg.OrgUnitRoot(), w.ous[j].name);
    }
  }

  // Trees in which every directory is as expected

  ghost predicate Good(t: Tree, w: World) {
    && Inside(t.nodes, w.cfg.rootdir, w.Dirs(), w.Links())
    && (forall q :: IsDir(t.nodes, q) && (q == w.cfg.rootdir || Below(q, w.cfg.rootdir)) ==>
          q in t.acls && t.acls[q] == ExpectedAcl(CheckOf(w.ScriptAt(q))))
    && (forall q :: q in t.nodes && Below(q, w.cfg.rootdir) && t.nodes[q].Link? ==> t.nodes[q].target == w.DestAt(q))
  }

  /** A job that makes or meets the right directory at a path whose parent is there. */
  ghost predicate Fits(nodes: Nodes, w: World, job: DirJob) {
    && job.path in w.Dirs() && job.path !in w.Links() && Plain(w.cfg.rootdir, w.Links(), job.path)
    && job.script == w.ScriptAt(job.path) && DistinctGids(job.script)
    && IsDir(nodes, Parent(job.path))
    && Heir(ExpectedAcl(CheckOf(w.ScriptAt(Parent(job.path)))), job.script)
  }

  lemma GoodScript(t: Tree, w: World, job: DirJob)
    requires Good(t, w) && !t.err && Fits(t.nodes, w, job)
    ensures var r := RunScript(t, job.path, job.script);
            Good(r, w) && !r.err && Grows(t.nodes, r.nodes) && IsDir(r.nodes, job.path)
  {
    hide WellFormed, RunScript, NoLinks, Plain, AfterScript, Inherit, Heir, World.ScriptAt, World.DestAt, ExpectedAcl, CheckOf, World.Dirs, World.Links;
    var p := job.path;
    PlainParent(t.nodes, w.cfg.rootdir, w.Dirs(), w.Links(), p);
    var d := Parent(p);
    ChildSplit(p, d);
    ScriptPlain(t, d, p[|d| + 1..], job.script);
    PlainIsBelow(w.cfg.rootdir, w.Links(), p);
    if p in t.nodes {
      RerunScript(job.script);
    } else {
      FreshScript(job.script, t.acls[d]);
      GoodAdd(t, w, p);
    }
  }

  lemma GoodAdd(t: Tree, w: World, p: string)
    requires Good(t, w) && p in w.Dirs() && p !in t.nodes && WellFormed(t.nodes[p := Dir])
    ensures Good(t.(nodes := t.nodes[p := Dir], acls := t.acls[p := ExpectedAcl(CheckOf(w.ScriptAt(p)))]), w)
  {
    hide WellFormed, World.ScriptAt, World.DestAt, ExpectedAcl, CheckOf, World.Dirs, World.Links;
  }

  lemma PlainIsBelow(root: string, links: set<string>, p: string)
    requires Plain(root, links, p)
    ensures Below(p, root)
  {
  }

  ghost predicate AllFit(nodes: Nodes, w: World, jobs: seq<DirJob>) {
    forall i :: 0 <= i < |jobs| ==> Fits(nodes, w, jobs[i])
  }

  lemma FitsStays(n0: Nodes, n1: Nodes, w: World, job: DirJob)
    requires Fits(n0, w, job) && Grows(n0, n1)
    ensures Fits(n1, w, job)
  {
  }

  ghost predicate Made(nodes: Nodes, jobs: seq<DirJob>) {
    forall i :: 0 <= i < |jobs| ==> IsDir(nodes, jobs[i].path)
  }

  lemma {:induction false} GoodJobs(t: Tree, w: World, jobs: seq<DirJob>)
    requires Good(t, w) && !t.err && AllFit(t.nodes, w, jobs)
    ensures var r := RunJobs(t, jobs);
            Good(r, w) && !r.err && Grows(t.nodes, r.nodes) && Made(r.nodes, jobs)
  {
    hide Good, RunScript, Fits;
    if jobs != [] {
      var n := |jobs| - 1;
      GoodJobs(t, w, jobs[..n]);
      var mid := RunJobs(t, jobs[..n]);
      FitsStays(t.nodes, mid.nodes, w, jobs[n]);
      GoodScript(mid, w, jobs[n]);
      var r := RunJobs(t, jobs);
      forall i | 0 <= i < |jobs| ensures IsDir(r.nodes, jobs[i].path) {
        if i < n { assert jobs[..n][i] == jobs[i]; }
      }
    }
  }

  // Which jobs fit

  lemma ServiceFits(nodes: Nodes, w: World, i: nat)
    requires w.Valid() && i < |w.services| && IsDir(nodes, w.cfg.ServiceRoot())
    ensures Fits(nodes, w, ServiceJob(w.cfg.ServiceRoot(), w.services[i]))
  {
    hide World.ScriptAt, ExpectedAcl, Heir, Plain;
    var p := w.cfg.ServiceRoot() + "/" + w.services[i].name;
    ServiceScriptAt(w, i);
    TopScripts(w);
    assert p in ServicePaths(w.cfg.ServiceRoot(), w.services);
    DirsAreNotLinks(w, p);
    DirPathsPlain(w.cfg, w.services, w.ous, w.filter);
    TopHeirs(ServiceScript(w.services[i]));
  }

  lemma TopFits(nodes: Nodes, w: World, p: string)
    requires w.Valid() && (p == w.cfg.ServiceRoot() || p == w.cfg.OrgUnitRoot()) && IsDir(nodes, w.cfg.rootdir)
    ensures Fits(nodes, w, DirJob(p, ToplevelSh))
  {
    hide World.ScriptAt, ExpectedAcl, Heir, Plain;
    TopScripts(w);
    DirsAreNotLinks(w, p);
    DirPathsPlain(w.cfg, w.services, w.ous, w.filter);
    TopHeirs(ToplevelSh);
  }

  lemma SouFits(nodes: Nodes, w: World, i: nat, j: nat)
    requires w.Valid() && i < |w.services| && j < |w.ous| && w.filter(w.services[i], w.ous[j])
    requires IsDir(nodes, w.cfg.ServiceRoot() + "/" + w.services[i].name)
    ensures Fits(nodes, w, SouJob(w.cfg.ServiceRoot(), w.services[i], w.ous[j]))
  {
    hide World.ScriptAt, ExpectedAcl, Heir, Plain;
    var s, ou := w.services[i], w.ous[j];
    var job := SouJob(w.cfg.ServiceRoot(), s, ou);
    SouScriptAt(w, i, j);
    ServiceScriptAt(w, i);
    assert job.path in SouPaths(w.cfg.ServiceRoot(), w.services, w.ous, w.filter);
    DirsAreNotLinks(w, job.path);
    DirPathsPlain(w.cfg, w.services, w.ous, w.filter);
    assert job.script == SouJob("", s, ou).script;
    ServiceHeir(ServiceScript(s), ou.orgUnitGroup.gid, s.serviceGroup.gid, s.serviceOpsGroup.gid, s.superGroup.gid);
  }

  lemma OuFits(nodes: Nodes, w: World, j: nat)
    requires w.Valid() && j < |w.ous| && IsDir(nodes, w.cfg.OrgUnitRoot())
    ensures Fits(nodes, w, OrgUnitJob(w.cfg.OrgUnitRoot(), w.ous[j]))
  {
    hide World.ScriptAt, ExpectedAcl, Heir, Plain;
    var p := w.cfg.OrgUnitRoot() + "/" + w.ous[j].name;
    OuScriptAt(w, j);
    TopScripts(w);
    assert p in OuPaths(w.cfg.OrgUnitRoot(), w.ous);
    DirsAreNotLinks(w, p);
    DirPathsPlain(w.cfg, w.services, w.ous, w.filter);
    TopHeirs(OrgUnitSh(w.ous[j].orgUnitGroup.gid));
  }

  lemma SubdirFits(nodes: Nodes, w: World, j: nat, k: nat)
    requires w.Valid() && j < |w.ous| && k < |w.ous[j].subdirs|
    requires IsDir(nodes, w.cfg.OrgUnitRoot() + "/" + w.ous[j].name)
    ensures Fits(nodes, w, SubdirJob(w.cfg.OrgUnitRoot(), w.ous[j], w.ous[j].subdirs[k]))
  {
    hide World.ScriptAt, ExpectedAcl, Heir, Plain;
    var ou := w.ous[j];
    var job := SubdirJob(w.cfg.OrgUnitRoot(), ou, ou.subdirs[k]);
    SubdirScriptAt(w, j, k);
    OuScriptAt(w, j);
    assert job.path in SubdirPaths(w.cfg.OrgUnitRoot(), w.ous);
    DirsAreNotLinks(w, job.path);
    DirPathsPlain(w.cfg, w.services, w.ous, w.filter);
    OrgUnitHeir(ou.orgUnitGroup.gid, job.script);
  }

  // Directories that are ready for their check

  ghost predicate Ready(nodes: Nodes, w: World, e: Entry) {
    e.DirEntry? ==>
      IsDir(nodes, e.path) && (e.path == w.cfg.rootdir || Below(e.path, w.cfg.rootdir)) && e.acl == CheckOf(w.ScriptAt(e.path))
  }

  ghost predicate AllReady(nodes: Nodes, w: World, entries: seq<Entry>) {
    forall i :: 0 <= i < |entries| ==> Ready(nodes, w, entries[i])
  }

  lemma ReadyStays(n0: Nodes, n1: Nodes, w: World, entries: seq<Entry>)
    requires AllReady(n0, w, entries) && Grows(n0, n1)
    ensures AllReady(n1, w, entries)
  {
    hide World.ScriptAt, CheckOf;
    forall i | 0 <= i < |entries| ensures Ready(n1, w, entries[i]) {
      assert Ready(n0, w, entries[i]);
    }
  }

  lemma ReadyConcat(nodes: Nodes, w: World, a: seq<Entry>, b: seq<Entry>)
    requires AllReady(nodes, w, a) && AllReady(nodes, w, b)
    ensures AllReady(nodes, w, a + b)
  {
    hide Ready;
  }

  function EntriesOf(jobs: seq<DirJob>): seq<Entry> {
    if jobs == [] then []
    else
      var n := |jobs| - 1;
      EntriesOf(jobs[..n]) + [DirEntry(jobs[n].path, CheckOf(jobs[n].script))]
  }

  lemma {:induction false} EntriesOfConcat(a: seq<DirJob>, b: seq<DirJob>)
    ensures EntriesOf(a + b) == EntriesOf(a) + EntriesOf(b)
  {
    if b == [] {
      assert a + b == a;
    } else {
      var n := |b| - 1;
      assert (a + b)[..|a| + n] == a + b[..n];
      EntriesOfConcat(a, b[..n]);
    }
  }

  lemma EntriesOfNone()
    ensures EntriesOf([]) == []
  {
  }

  lemma EntriesOfOne(job: DirJob)
    ensures EntriesOf([job]) == [DirEntry(job.path, CheckOf(job.script))]
  {
    assert [job][..0] == [];
  }

  /** Jobs that were done at the right paths are ready. */
  lemma {:induction false} JobsReady(n0: Nodes, nodes: Nodes, w: World, jobs: seq<DirJob>)
    requires AllFit(n0, w, jobs) && Made(nodes, jobs)
    ensures AllReady(nodes, w, EntriesOf(jobs))
  {
    hide World.ScriptAt, Heir, ExpectedAcl, World.Dirs, World.Links;
    if jobs != [] {
      var n := |jobs| - 1;
      JobsReady(n0, nodes, w, jobs[..n]);
      assert Fits(n0, w, jobs[n]);
      var e := DirEntry(jobs[n].path, CheckOf(jobs[n].script));
      assert Ready(nodes, w, e);
      ReadyConcat(nodes, w, EntriesOf(jobs[..n]), [e]);
    }
  }

  // The lists of the checker are those of the apply run

  lemma {:induction false} ServiceLists(root: string, services: seq<Service>)
    requires forall i :: 0 <= i < |services| ==> services[i].access != Unspecified
    ensures ServiceDirs(root, services) == EntriesOf(ServiceJobs(root, services))
  {
    hide EntriesOf;
    EntriesOfNone();
    if services != [] {
      var n := |services| - 1;
      ServiceLists(root, services[..n]);
      EntriesOfConcat(ServiceJobs(root, services[..n]), [ServiceJob(root, services[n])]);
      EntriesOfOne(ServiceJob(root, services[n]));
    }
  }

  lemma {:induction false} SouLists(root: string, s: Service, ous: seq<OrgUnit>, filter: Filter)
    ensures SouDirs(root, s, ous, filter) == EntriesOf(SouJobs(root, s, ous, filter))
  {
    hide EntriesOf;
    EntriesOfNone();
    if ous != [] {
      var n := |ous| - 1;
      SouLists(root, s, ous[..n], filter);
      if filter(s, ous[n]) {
        EntriesOfConcat(SouJobs(root, s, ous[..n], filter), [SouJob(root, s, ous[n])]);
        EntriesOfOne(SouJob(root, s, ous[n]));
      } else {
        assert SouJobs(root, s, ous, filter) == SouJobs(root, s, ous[..n], filter);
      }
    }
  }

  lemma {:induction false} OrgUnitLists(root: string, ous: seq<OrgUnit>)
    ensures OrgUnitDirs(root, ous) == EntriesOf(OrgUnitJobs(root, ous))
  {
    hide EntriesOf;
    EntriesOfNone();
    if ous != [] {
      var n := |ous| - 1;
      OrgUnitLists(root, ous[..n]);
      EntriesOfConcat(OrgUnitJobs(root, ous[..n]), [OrgUnitJob(root, ous[n])]);
      EntriesOfOne(OrgUnitJob(root, ous[n]));
    }
  }

  lemma {:induction false} OuSubdirLists(root: string, ou: OrgUnit, subdirs: seq<DirWithPolicy>)
    ensures OuSubdirs(root, ou, subdirs) == EntriesOf(OuSubdirJobs(root, ou, subdirs))
  {
    hide EntriesOf;
    EntriesOfNone();
    if subdirs != [] {
      var n := |subdirs| - 1;
      OuSubdirLists(root, ou, subdirs[..n]);
      EntriesOfConcat(OuSubdirJobs(root, ou, subdirs[..n]), [SubdirJob(root, ou, subdirs[n])]);
      EntriesOfOne(SubdirJob(root, ou, subdirs[n]));
    }
  }

  lemma {:induction false} SubdirLists(root: string, ous: seq<OrgUnit>)
    ensures AllSubdirs(root, ous) == EntriesOf(SubdirJobs(root, ous))
  {
    if ous != [] {
      var n := |ous| - 1;
      SubdirLists(root, ous[..n]);
      OuSubdirLists(root, ous[n], ous[n].subdirs);
      EntriesOfConcat(SubdirJobs(root, ous[..n]), OuSubdirJobs(root, ous[n], ous[n].subdirs));
    }
  }

  // The jobs of a stage fit

  lemma FitSnoc(nodes: Nodes, w: World, jobs: seq<DirJob>, job: DirJob)
    requires AllFit(nodes, w, jobs) && Fits(nodes, w, job)
    ensures AllFit(nodes, w, jobs + [job])
  {
    hide Fits;
  }

  lemma {:induction false} ServiceJobsFit(nodes: Nodes, w: World, k: nat)
    requires w.Valid() && k <= |w.services| && IsDir(nodes, w.cfg.ServiceRoot())
    ensures AllFit(nodes, w, ServiceJobs(w.cfg.ServiceRoot(), w.services[..k]))
  {
    hide Fits;
    if k > 0 {
      ServiceJobsFit(nodes, w, k - 1);
      Last(w.services, k - 1);
      ServiceFits(nodes, w, k - 1);
      FitSnoc(nodes, w, ServiceJobs(w.cfg.ServiceRoot(), w.services[..k - 1]), ServiceJob(w.cfg.ServiceRoot(), w.services[k - 1]));
    }
  }

  lemma {:induction false} SouJobsFit(nodes: Nodes, w: World, i: nat, k: nat)
    requires w.Valid() && i < |w.services| && k <= |w.ous|
    requires IsDir(nodes, w.cfg.ServiceRoot() + "/" + w.services[i].name)
    ensures AllFit(nodes, w, SouJobs(w.cfg.ServiceRoot(), w.services[i], w.ous[..k], w.filter))
  {
    hide Fits;
    if k > 0 {
      SouJobsFit(nodes, w, i, k - 1);
      Last(w.ous, k - 1);
      var root, s := w.cfg.ServiceRoot(), w.services[i];
      if w.filter(s, w.ous[k - 1]) {
        SouFits(nodes, w, i, k - 1);
        FitSnoc(nodes, w, SouJobs(root, s, w.ous[..k - 1], w.filter), SouJob(root, s, w.ous[k - 1]));
      } else {
        assert SouJobs(root, s, w.ous[..k], w.filter) == SouJobs(root, s, w.ous[..k - 1], w.filter);
      }
    }
  }

  lemma {:induction false} OuJobsFit(nodes: Nodes, w: World, k: nat)
    requires w.Valid() && k <= |w.ous| && IsDir(nodes, w.cfg.OrgUnitRoot())
    ensures AllFit(nodes, w, OrgUnitJobs(w.cfg.OrgUnitRoot(), w.ous[..k]))
  {
    hide Fits;
    if k > 0 {
      OuJobsFit(nodes, w, k - 1);
      Last(w.ous, k - 1);
      OuFits(nodes, w, k - 1);
      FitSnoc(nodes, w, OrgUnitJobs(w.cfg.OrgUnitRoot(), w.ous[..k - 1]), OrgUnitJob(w.cfg.OrgUnitRoot(), w.ous[k - 1]));
    }
  }

  lemma {:induction false} OuSubdirJobsFit(nodes: Nodes, w: World, j: nat, k: nat)
    requires w.Valid() && j < |w.ous| && k <= |w.ous[j].subdirs|
    requires IsDir(nodes, w.cfg.OrgUnitRoot() + "/" + w.ous[j].name)
    ensures AllFit(nodes, w, OuSubdirJobs(w.cfg.OrgUnitRoot(), w.ous[j], w.ous[j].subdirs[..k]))
  {
    hide Fits;
    if k > 0 {
      var root, ou := w.cfg.OrgUnitRoot(), w.ous[j];
      OuSubdirJobsFit(nodes, w, j, k - 1);
      Last(ou.subdirs, k - 1);
      SubdirFits(nodes, w, j, k - 1);
      FitSnoc(nodes, w, OuSubdirJobs(root, ou, ou.subdirs[..k - 1]), SubdirJob(root, ou, ou.subdirs[k - 1]));
    }
  }

  lemma {:induction false} SubdirJobsFit(nodes: Nodes, w: World, k: nat)
    requires w.Valid() && k <= |w.ous| && OuDirsThere(nodes, w.cfg.OrgUnitRoot(), w.ous)
    ensures AllFit(nodes, w, SubdirJobs(w.cfg.OrgUnitRoot(), w.ous[..k]))
  {
    hide Fits;
    if k > 0 {
      var root, ou := w.cfg.OrgUnitRoot(), w.ous[k - 1];
      SubdirJobsFit(nodes, w, k - 1);
      Last(w.ous, k - 1);
      OuSubdirJobsFit(nodes, w, k - 1, |ou.subdirs|);
      assert ou.subdirs[..|ou.subdirs|] == ou.subdirs;
    }
  }

  // The clean-ups find nothing

  lemma NoStraySous(t: Tree, w: World, i: nat)
    requires w.Valid() && Good(t, w) && i < |w.services|
    ensures forall p :: !MayGo(t.nodes, w.cfg.ServiceRoot() + "/" + w.services[i].name,
                               AcceptedOus(w.services[i], w.ous, w.filter), false, p)
  {
    hide World.ScriptAt, ExpectedAcl, WellFormed;
    var dir := w.cfg.ServiceRoot() + "/" + w.services[i].name;
    forall p ensures !MayGo(t.nodes, dir, AcceptedOus(w.services[i], w.ous, w.filter), false, p) {
      if p in t.nodes && ChildOf(p, dir) && t.nodes[p] == Dir {
        StraySou(w, i, p, t.nodes);
      }
    }
  }

  lemma StraySou(w: World, i: nat, p: string, nodes: Nodes)
    requires w.Valid() && i < |w.services| && Inside(nodes, w.cfg.rootdir, w.Dirs(), w.Links())
    requires p in nodes && nodes[p] == Dir && ChildOf(p, w.cfg.ServiceRoot() + "/" + w.services[i].name)
    ensures p[|w.cfg.ServiceRoot() + "/" + w.services[i].name| + 1..] in AcceptedOus(w.services[i], w.ous, w.filter)
  {
    hide World.ScriptAt, WellFormed;
    var root, s := w.cfg.ServiceRoot(), w.services[i];
    var dir := root + "/" + s.name;
    var n := p[|dir| + 1..];
    ChildSplit(p, dir);
    DeepParent(w, root, s.name, n);
    MakeChild(w.cfg.rootdir, w.cfg.serviceDir);
    MakeChild(root, s.name);
    BelowTransitive(p, dir, root);
    BelowTransitive(p, root, w.cfg.rootdir);
    assert p in w.Dirs();
    NotUpper(w, p);
    if p in SubdirPaths(w.cfg.OrgUnitRoot(), w.ous) { SubdirParent(w, p); }
    TopScripts(w);
    var a, b :| 0 <= a < |w.services| && 0 <= b < |w.ous| && w.filter(w.services[a], w.ous[b]) &&
      p == root + "/" + w.services[a].name + "/" + w.ous[b].name;
    DeepParent(w, root, w.services[a].name, w.ous[b].name);
    ServiceFound(w.services, a);
    ServiceFound(w.services, i);
  }

  lemma SubdirParent(w: World, p: string)
    requires w.Valid() && p in SubdirPaths(w.cfg.OrgUnitRoot(), w.ous)
    ensures Parent(Parent(p)) == w.cfg.OrgUnitRoot()
  {
    hide World.ScriptAt;
    var j, k :| 0 <= j < |w.ous| && 0 <= k < |w.ous[j].subdirs| &&
      p == w.cfg.OrgUnitRoot() + "/" + w.ous[j].name + "/" + w.ous[j].subdirs[k].name;
    DeepParent(w, w.cfg.OrgUnitRoot(), w.ous[j].name, w.ous[j].subdirs[k].name);
  }

  lemma NoStrayLinks(t: Tree, w: World, j: nat)
    requires w.Valid() && Good(t, w) && j < |w.ous|
    ensures forall p :: !MayGo(t.nodes, w.cfg.OrgUnitRoot() + "/" + w.ous[j].name,
                               AcceptedServices(w.services, w.ous[j], w.filter), true, p)
  {
    hide World.ScriptAt, ExpectedAcl, WellFormed;
    var dir := w.cfg.OrgUnitRoot() + "/" + w.ous[j].name;
    forall p ensures !MayGo(t.nodes, dir, AcceptedServices(w.services, w.ous[j], w.filter), true, p) {
      if p in t.nodes && ChildOf(p, dir) && t.nodes[p].Link? {
        StrayLink(w, j, p, t.nodes);
      }
    }
  }

  lemma StrayLink(w: World, j: nat, p: string, nodes: Nodes)
    requires w.Valid() && j < |w.ous| && Inside(nodes, w.cfg.rootdir, w.Dirs(), w.Links())
    requires p in nodes && nodes[p].Link? && ChildOf(p, w.cfg.OrgUnitRoot() + "/" + w.ous[j].name)
    ensures p[|w.cfg.OrgUnitRoot() + "/" + w.ous[j].name| + 1..] in AcceptedServices(w.services, w.ous[j], w.filter)
  {
    hide World.ScriptAt, WellFormed;
    var root, ou := w.cfg.OrgUnitRoot(), w.ous[j];
    var dir := root + "/" + ou.name;
    var n := p[|dir| + 1..];
    ChildSplit(p, dir);
    DeepParent(w, root, ou.name, n);
    MakeChild(w.cfg.rootdir, w.cfg.orgUnitDir);
    MakeChild(root, ou.name);
    BelowTransitive(p, dir, root);
    BelowTransitive(p, root, w.cfg.rootdir);
    assert p in w.Links();
    var a, b :| 0 <= a < |w.services| && 0 <= b < |w.ous| && w.filter(w.services[a], w.ous[b]) &&
      p == root + "/" + w.ous[b].name + "/" + w.services[a].name;
    DeepParent(w, root, w.ous[b].name, w.services[a].name);
    OuFound(w.ous, b);
    OuFound(w.ous, j);
  }

  // Service links

  lemma GoodLink(t: Tree, w: World, i: nat, j: nat)
    requires w.Valid() && Good(t, w) && !t.err && i < |w.services| && j < |w.ous| && w.filter(w.services[i], w.ous[j])
    requires IsDir(t.nodes, w.cfg.OrgUnitRoot() + "/" + w.ous[j].name)
    ensures var job := ServiceLinkJob(w.cfg.OrgUnitRoot(), w.cfg.serviceDir, w.ous[j], w.services[i]);
            var r := MakeLink(t, job.dest, job.path);
            Good(r, w) && !r.err && Grows(t.nodes, r.nodes)
  {
    hide World.ScriptAt, World.DestAt, ExpectedAcl, WellFormed, MakeLink, Join, LinkPaths, DirPaths;
    var job := ServiceLinkJob(w.cfg.OrgUnitRoot(), w.cfg.serviceDir, w.ous[j], w.services[i]);
    DestAtLink(w, i, j);
    LinkDestParts(w.cfg.serviceDir, w.ous[j], w.services[i]);
    LinkIsListed(w, i, j);
    MakeLinkAt(t, w, job);
  }

  lemma LinkIsListed(w: World, i: nat, j: nat)
    requires w.Valid() && i < |w.services| && j < |w.ous| && w.filter(w.services[i], w.ous[j])
    ensures var p := w.cfg.OrgUnitRoot() + "/" + w.ous[j].name + "/" + w.services[i].name;
            p in w.Links() && p !in w.Dirs() && KeyPath(Parent(p)) && ChildOf(p, Parent(p)) && Below(p, w.cfg.rootdir)
            && Parent(p) == w.cfg.OrgUnitRoot() + "/" + w.ous[j].name
  {
    hide World.ScriptAt, Split;
    var p := w.cfg.OrgUnitRoot() + "/" + w.ous[j].name + "/" + w.services[i].name;
    AbsIsKey(w.cfg.rootdir);
    OneDeep(w.cfg.rootdir, w.cfg.orgUnitDir, w.ous[j].name);
    TwoDeep(w.cfg.rootdir, w.cfg.orgUnitDir, w.ous[j].name, w.services[i].name);
    DeepParent(w, w.cfg.OrgUnitRoot(), w.ous[j].name, w.services[i].name);
    MakeChild(w.cfg.OrgUnitRoot() + "/" + w.ous[j].name, w.services[i].name);
    if p in w.Dirs() { DirsAreNotLinks(w, p); }
  }

  lemma MakeLinkAt(t: Tree, w: World, job: LinkJob)
    requires Good(t, w) && !t.err && job.dest == w.DestAt(job.path) && job.dest != ""
    requires job.path in w.Links() && job.path !in w.Dirs() && Below(job.path, w.cfg.rootdir)
    requires KeyPath(Parent(job.path)) && ChildOf(job.path, Parent(job.path)) && IsDir(t.nodes, Parent(job.path))
    ensures var r := MakeLink(t, job.dest, job.path);
            Good(r, w) && !r.err && Grows(t.nodes, r.nodes)
  {
    hide World.ScriptAt, World.DestAt, ExpectedAcl, WellFormed, MakeLink, World.Dirs, World.Links, CheckOf;
    var d := Parent(job.path);
    ChildSplit(job.path, d);
    MakeLinkPlain(t, d, job.path[|d| + 1..], job.dest);
  }

  lemma {:induction false} GoodLinkJobs(t: Tree, w: World, j: nat, k: nat)
    requires w.Valid() && Good(t, w) && !t.err && j < |w.ous| && k <= |w.services|
    requires IsDir(t.nodes, w.cfg.OrgUnitRoot() + "/" + w.ous[j].name)
    ensures var r := RunLinkJobs(t, OuLinkJobs(w.cfg.OrgUnitRoot(), w.cfg.serviceDir, w.ous[j], w.services[..k], w.filter));
            Good(r, w) && !r.err && Grows(t.nodes, r.nodes)
  {
    hide Good, MakeLink, ServiceLinkJob;
    if k > 0 {
      GoodLinkJobs(t, w, j, k - 1);
      Last(w.services, k - 1);
      var root, sd, ou, s := w.cfg.OrgUnitRoot(), w.cfg.serviceDir, w.ous[j], w.services[k - 1];
      var jobs := OuLinkJobs(root, sd, ou, w.services[..k - 1], w.filter);
      if w.filter(s, ou) {
        LinkOneMore(t, jobs, ServiceLinkJob(root, sd, ou, s));
        GoodLink(RunLinkJobs(t, jobs), w, k - 1, j);
        GrowsTransitive(t.nodes, RunLinkJobs(t, jobs).nodes, RunLinkJobs(t, jobs + [ServiceLinkJob(root, sd, ou, s)]).nodes);
      } else {
        assert OuLinkJobs(root, sd, ou, w.services[..k], w.filter) == jobs;
      }
    }
  }

  // The stages

  lemma {:induction false} GoodServices(t: Tree, w: World, k: nat)
    requires w.Valid() && Good(t, w) && !t.err && k <= |w.services|
    requires Made(t.nodes, ServiceJobs(w.cfg.ServiceRoot(), w.services))
    ensures var r := ServiceOrgUnitDirs(t, w.cfg.ServiceRoot(), w.services[..k], w.ous, w.filter);
            && Good(r, w) && !r.err && Grows(t.nodes, r.nodes)
            && AllReady(r.nodes, w, AllSouDirs(w.cfg.ServiceRoot(), w.services[..k], w.ous, w.filter))
  {
    hide Good, RunJobs, RmUnexpected, Resolve, Ready, AllReady, AllFit, EntriesOf, MayGo, SouJobs, SouDirs, AcceptedOus, WellFormed;
    NoneReady(t.nodes, w);
    if k > 0 {
      var root, i := w.cfg.ServiceRoot(), k - 1;
      var s := w.services[i];
      GoodServices(t, w, i);
      Last(w.services, i);
      var before := ServiceOrgUnitDirs(t, root, w.services[..i], w.ous, w.filter);
      var jobs := SouJobs(root, s, w.ous, w.filter);
      ServiceMade(t.nodes, w, i);
      SouJobsFit(before.nodes, w, i, |w.ous|);
      assert w.ous[..|w.ous|] == w.ous;
      GoodJobs(before, w, jobs);
      var after := RunJobs(before, jobs);
      GoodIsWellFormed(after, w);
      NoStraySous(after, w, i);
      ResolveDir(after.nodes, root + "/" + s.name);
      CleanAlready(after, root + "/" + s.name, AcceptedOus(s, w.ous, w.filter), false);
      JobsReady(before.nodes, after.nodes, w, jobs);
      SouLists(root, s, w.ous, w.filter);
      ReadyStays(before.nodes, after.nodes, w, AllSouDirs(root, w.services[..i], w.ous, w.filter));
      ReadyConcat(after.nodes, w, AllSouDirs(root, w.services[..i], w.ous, w.filter), SouDirs(root, s, w.ous, w.filter));
    }
  }

  lemma NoneReady(nodes: Nodes, w: World)
    ensures AllReady(nodes, w, []) && Grows(nodes, nodes)
  {
  }

  lemma GoodIsWellFormed(t: Tree, w: World)
    requires Good(t, w)
    ensures WellFormed(t.nodes) && IsDir(t.nodes, w.cfg.rootdir)
  {
  }

  lemma ServiceMade(nodes: Nodes, w: World, i: nat)
    requires i < |w.services| && Made(nodes, ServiceJobs(w.cfg.ServiceRoot(), w.services))
    ensures IsDir(nodes, w.cfg.ServiceRoot() + "/" + w.services[i].name)
  {
    ServiceJobsPrefix(w.cfg.ServiceRoot(), w.services, i + 1);
    Last(w.services, i);
    var jobs := ServiceJobs(w.cfg.ServiceRoot(), w.services);
    assert jobs[i] == jobs[..i + 1][i];
    ServiceJobsPrefix(w.cfg.ServiceRoot(), w.services[..i + 1], i);
  }

  lemma OusMade(nodes: Nodes, w: World)
    requires Made(nodes, OrgUnitJobs(w.cfg.OrgUnitRoot(), w.ous))
    ensures OuDirsThere(nodes, w.cfg.OrgUnitRoot(), w.ous)
  {
    var root := w.cfg.OrgUnitRoot();
    var jobs := OrgUnitJobs(root, w.ous);
    forall i | 0 <= i < |w.ous| ensures IsDir(nodes, root + "/" + w.ous[i].name) {
      OrgUnitJobsPrefix(root, w.ous, i + 1);
      Last(w.ous, i);
      assert jobs[i] == jobs[..i + 1][i];
      OrgUnitJobsPrefix(root, w.ous[..i + 1], i);
    }
  }

  lemma {:induction false} GoodOus(t: Tree, w: World, k: nat)
    requires w.Valid() && Good(t, w) && !t.err && k <= |w.ous| && OuDirsThere(t.nodes, w.cfg.OrgUnitRoot(), w.ous)
    ensures var r := OrgUnitServiceLinks(t, w.cfg.OrgUnitRoot(), w.cfg.serviceDir, w.ous[..k], w.services, w.filter);
            Good(r, w) && !r.err && Grows(t.nodes, r.nodes)
  {
    hide Good, OrgUnitLinks, World.Valid, OuDirsThere;
    if k > 0 {
      var root, j := w.cfg.OrgUnitRoot(), k - 1;
      GoodOus(t, w, j);
      Last(w.ous, j);
      var before := OrgUnitServiceLinks(t, root, w.cfg.serviceDir, w.ous[..j], w.services, w.filter);
      OuDirsStay(t.nodes, before.nodes, root, w.ous);
      GoodOu(before, w, j);
    }
  }

  lemma OuDirsStay(n0: Nodes, n1: Nodes, root: string, ous: seq<OrgUnit>)
    requires OuDirsThere(n0, root, ous) && Grows(n0, n1)
    ensures OuDirsThere(n1, root, ous)
  {
  }

  /** The links of one org unit; there is nothing to clean up. */
  lemma GoodOu(t: Tree, w: World, j: nat)
    requires w.Valid() && Good(t, w) && !t.err && j < |w.ous| && OuDirsThere(t.nodes, w.cfg.OrgUnitRoot(), w.ous)
    ensures var r := OrgUnitLinks(t, w.cfg.OrgUnitRoot(), w.cfg.serviceDir, w.ous[j], w.services, w.filter);
            Good(r, w) && !r.err && Grows(t.nodes, r.nodes)
  {
    hide Good, RunLinkJobs, RmUnexpected, Resolve, WellFormed, World.Valid;
    var root, ou := w.cfg.OrgUnitRoot(), w.ous[j];
    assert w.services[..|w.services|] == w.services;
    GoodLinkJobs(t, w, j, |w.services|);
    var after := RunLinkJobs(t, OuLinkJobs(root, w.cfg.serviceDir, ou, w.services, w.filter));
    GoodIsWellFormed(after, w);
    NoStrayLinks(after, w, j);
    ResolveDir(after.nodes, root + "/" + ou.name);
    CleanAlready(after, root + "/" + ou.name, AcceptedServices(w.services, ou, w.filter), true);
  }

  /** The service part from a good tree. */
  lemma GoodServicePart(t: Tree, w: World)
    requires w.Valid() && Good(t, w) && !t.err
    ensures var r := ServicePart(t, w.cfg, w.services, w.ous, w.filter);
            && Good(r, w) && !r.err && Grows(t.nodes, r.nodes) && IsDir(r.nodes, w.cfg.ServiceRoot())
            && AllReady(r.nodes, w, ServiceDirs(w.cfg.ServiceRoot(), w.services))
            && AllReady(r.nodes, w, AllSouDirs(w.cfg.ServiceRoot(), w.services, w.ous, w.filter))
  {
    hide Good, RunJobs, RunScript, ServiceOrgUnitDirs, Ready, Fits, WellFormed;
    var root := w.cfg.ServiceRoot();
    var jobs := ServiceJobs(root, w.services);
    assert w.services[..|w.services|] == w.services;
    GoodIsWellFormed(t, w);
    TopFits(t.nodes, w, root);
    GoodScript(t, w, DirJob(root, ToplevelSh));
    var top := RunScript(t, root, ToplevelSh);
    ServiceJobsFit(top.nodes, w, |w.services|);
    GoodJobs(top, w, jobs);
    var made := RunJobs(top, jobs);
    JobsReady(top.nodes, made.nodes, w, jobs);
    ServiceLists(root, w.services);
    GoodServices(made, w, |w.services|);
    var r := ServiceOrgUnitDirs(made, root, w.services, w.ous, w.filter);
    ReadyStays(made.nodes, r.nodes, w, ServiceDirs(root, w.services));
  }

  /** The org unit part from a good tree. */
  lemma GoodOrgUnitPart(t: Tree, w: World)
    requires w.Valid() && Good(t, w) && !t.err
    ensures var r := OrgUnitPart(t, w.cfg, w.services, w.ous, w.filter);
            && Good(r, w) && !r.err && Grows(t.nodes, r.nodes) && IsDir(r.nodes, w.cfg.OrgUnitRoot())
            && AllReady(r.nodes, w, OrgUnitDirs(w.cfg.OrgUnitRoot(), w.ous))
            && AllReady(r.nodes, w, AllSubdirs(w.cfg.OrgUnitRoot(), w.ous))
  {
    hide Good, RunJobs, RunScript, OrgUnitServiceLinks, Ready, Fits, WellFormed;
    var root := w.cfg.OrgUnitRoot();
    assert w.ous[..|w.ous|] == w.ous;
    GoodIsWellFormed(t, w);
    TopFits(t.nodes, w, root);
    GoodScript(t, w, DirJob(root, ToplevelSh));
    var top := RunScript(t, root, ToplevelSh);
    OuJobsFit(top.nodes, w, |w.ous|);
    GoodJobs(top, w, OrgUnitJobs(root, w.ous));
    var made := RunJobs(top, OrgUnitJobs(root, w.ous));
    JobsReady(top.nodes, made.nodes, w, OrgUnitJobs(root, w.ous));
    OrgUnitLists(root, w.ous);
    OusMade(made.nodes, w);
    GoodOus(made, w, |w.ous|);
    var linked := OrgUnitServiceLinks(made, root, w.cfg.serviceDir, w.ous, w.services, w.filter);
    SubdirJobsFit(linked.nodes, w, |w.ous|);
    GoodJobs(linked, w, SubdirJobs(root, w.ous));
    var r := RunJobs(linked, SubdirJobs(root, w.ous));
    JobsReady(linked.nodes, r.nodes, w, SubdirJobs(root, w.ous));
    SubdirLists(root, w.ous);
    GrowsTransitive(made.nodes, linked.nodes, r.nodes);
    ReadyStays(made.nodes, r.nodes, w, OrgUnitDirs(root, w.ous));
  }

  // The whole run

  /** An empty root directory of root:root with mode 0755 and no further entries. */
  ghost predicate FreshTree(t: Tree, w: World) {
    && EmptyRoot(t.nodes, w.cfg.rootdir) && !t.err
    && w.cfg.rootdir in t.acls && t.acls[w.cfg.rootdir] == ExpectedAcl(CheckOf(ToplevelSh))
  }

  lemma FreshIsGood(t: Tree, w: World)
    requires w.Valid() && FreshTree(t, w)
    ensures Good(t, w)
  {
    hide World.ScriptAt, ExpectedAcl, WellFormed;
    TopScripts(w);
  }

  /** Below an empty root, everything before the explicit links succeeds, and every
      expected directory has exactly the expected ACL. */
  lemma FreshParts(t: Tree, w: World)
    requires w.Valid() && FreshTree(t, w)
    ensures var r := OrgUnitPart(ServicePart(t, w.cfg, w.services, w.ous, w.filter), w.cfg, w.services, w.ous, w.filter);
            !r.err && Good(r, w) && AllReady(r.nodes, w, FsCheck.Entries(w.cfg, w.services, w.ous, w.filter))
  {
    hide Good, ServicePart, OrgUnitPart, Ready, WellFormed, AllReady;
    FreshIsGood(t, w);
    GoodServicePart(t, w);
    var srv := ServicePart(t, w.cfg, w.services, w.ous, w.filter);
    GoodOrgUnitPart(srv, w);
    var r := OrgUnitPart(srv, w.cfg, w.services, w.ous, w.filter);
    ReadyStays(srv.nodes, r.nodes, w, ServiceDirs(w.cfg.ServiceRoot(), w.services));
    ReadyStays(srv.nodes, r.nodes, w, AllSouDirs(w.cfg.ServiceRoot(), w.services, w.ous, w.filter));
    GoodIsWellFormed(r, w);
    TopStillThere(srv.nodes, r.nodes, w.cfg.ServiceRoot());
    TopsReady(r.nodes, w);
    LinksReady(r.nodes, w);
    EntriesReady(r.nodes, w);
  }

  lemma TopStillThere(n0: Nodes, n1: Nodes, p: string)
    requires IsDir(n0, p) && Grows(n0, n1)
    ensures IsDir(n1, p)
  {
  }

  function TopEntries(cfg: Config): seq<Entry> {
    [DirEntry(cfg.rootdir, Toplevel), DirEntry(cfg.ServiceRoot(), Toplevel), DirEntry(cfg.OrgUnitRoot(), Toplevel)]
  }

  lemma TopsReady(nodes: Nodes, w: World)
    requires w.Valid() && IsDir(nodes, w.cfg.rootdir) && IsDir(nodes, w.cfg.ServiceRoot()) && IsDir(nodes, w.cfg.OrgUnitRoot())
    ensures AllReady(nodes, w, TopEntries(w.cfg))
  {
    hide World.ScriptAt;
    TopScripts(w);
    MakeChild(w.cfg.rootdir, w.cfg.serviceDir);
    MakeChild(w.cfg.rootdir, w.cfg.orgUnitDir);
  }

  ghost predicate OnlyLinks(entries: seq<Entry>) {
    forall i :: 0 <= i < |entries| ==> entries[i].LinkEntry?
  }

  lemma {:induction false} OuLinksAreLinks(root: string, serviceDir: string, ou: OrgUnit, services: seq<Service>, filter: Filter)
    ensures OnlyLinks(OuLinks(root, serviceDir, ou, services, filter))
  {
    if services != [] { OuLinksAreLinks(root, serviceDir, ou, services[..|services| - 1], filter); }
  }

  lemma {:induction false} AllOuLinksAreLinks(
    root: string, serviceDir: string, ous: seq<OrgUnit>, services: seq<Service>, filter: Filter)
    ensures OnlyLinks(AllOuLinks(root, serviceDir, ous, services, filter))
  {
    if ous != [] {
      var n := |ous| - 1;
      AllOuLinksAreLinks(root, serviceDir, ous[..n], services, filter);
      OuLinksAreLinks(root, serviceDir, ous[n], services, filter);
    }
  }

  lemma LinksReady(nodes: Nodes, w: World)
    ensures AllReady(nodes, w, AllOuLinks(w.cfg.OrgUnitRoot(), w.cfg.serviceDir, w.ous, w.services, w.filter))
  {
    AllOuLinksAreLinks(w.cfg.OrgUnitRoot(), w.cfg.serviceDir, w.ous, w.services, w.filter);
  }

  lemma EntriesReady(nodes: Nodes, w: World)
    requires AllReady(nodes, w, TopEntries(w.cfg))
    requires AllReady(nodes, w, ServiceDirs(w.cfg.ServiceRoot(), w.services))
    requires AllReady(nodes, w, AllSouDirs(w.cfg.ServiceRoot(), w.services, w.ous, w.filter))
    requires AllReady(nodes, w, OrgUnitDirs(w.cfg.OrgUnitRoot(), w.ous))
    requires AllReady(nodes, w, AllOuLinks(w.cfg.OrgUnitRoot(), w.cfg.serviceDir, w.ous, w.services, w.filter))
    requires AllReady(nodes, w, AllSubdirs(w.cfg.OrgUnitRoot(), w.ous))
    ensures AllReady(nodes, w, FsCheck.Entries(w.cfg, w.services, w.ous, w.filter))
  {
    hide AllReady;
    var s, o := w.cfg.ServiceRoot(), w.cfg.OrgUnitRoot();
    var a, b, c := TopEntries(w.cfg), ServiceDirs(s, w.services), AllSouDirs(s, w.services, w.ous, w.filter);
    var d, e, f := OrgUnitDirs(o, w.ous), AllOuLinks(o, w.cfg.serviceDir, w.ous, w.services, w.filter), AllSubdirs(o, w.ous);
    ReadyConcat(nodes, w, a, b);
    ReadyConcat(nodes, w, a + b, c);
    ReadyConcat(nodes, w, a + b + c, d);
    ReadyConcat(nodes, w, a + b + c + d, e);
    ReadyConcat(nodes, w, a + b + c + d + e, f);
  }

  lemma ReadyPasses(good: Tree, t: Tree, w: World, e: Entry)
    requires Good(good, w) && Grows(good.nodes, t.nodes) && WellFormed(t.nodes) && t.acls == good.acls
    requires Ready(good.nodes, w, e) && '\n' !in e.path && (e.DirEntry? ==> e.acl.Valid())
    ensures EntryAclPasses(t, e)
  {
    hide World.ScriptAt, ExpectedAcl, AclPasses, Resolve, WellFormed;
    if e.DirEntry? {
      ResolveDir(t.nodes, e.path);
      ExpectedPasses(e.path, e.acl);
    }
  }

  /** Apply implies check, ACLs: below an empty root, all directories pass the ACL check,
      whatever becomes of the explicit links. */
  lemma FreshAclsPass(t: Tree, w: World)
    requires w.Valid() && FreshTree(t, w)
    requires forall i :: 0 <= i < |FsCheck.Entries(w.cfg, w.services, w.ous, w.filter)| ==>
               '\n' !in FsCheck.Entries(w.cfg, w.services, w.ous, w.filter)[i].path
    ensures ValidEntries(FsCheck.Entries(w.cfg, w.services, w.ous, w.filter))
    ensures AclsPass(Applied(t, w.cfg, w.services, w.ous, w.filter), FsCheck.Entries(w.cfg, w.services, w.ous, w.filter))
  {
    hide Good, ServicePart, OrgUnitPart, Ready, WellFormed, EntryAclPasses, FsCheck.Entries, RunLinkJobs;
    FreshParts(t, w);
    EntriesValid(w.cfg, w.services, w.ous, w.filter);
    var parts := OrgUnitPart(ServicePart(t, w.cfg, w.services, w.ous, w.filter), w.cfg, w.services, w.ous, w.filter);
    AbsIsKey(w.cfg.rootdir);
    ExplicitClean(w.cfg.rootdir, w.cfg.symlinks);
    GoodIsWellFormed(parts, w);
    LinkJobsPass(parts, ExplicitJobs(w.cfg.rootdir, w.cfg.symlinks));
    var r := Applied(t, w.cfg, w.services, w.ous, w.filter);
    var entries := FsCheck.Entries(w.cfg, w.services, w.ous, w.filter);
    forall i | 0 <= i < |entries| ensures EntryAclPasses(r, entries[i]) {
      ReadyPasses(parts, r, w, entries[i]);
    }
  }

  /** Apply implies check: after an apply run without error below an empty root, all five
      checks of the independent checker pass. */
  lemma ApplyImpliesCheck(t: Tree, w: World)
    requires w.Valid() && FreshTree(t, w)
    requires NotThroughLinks(w.cfg, w.Links()) && !Applied(t, w.cfg, w.services, w.ous, w.filter).err
    requires forall i :: 0 <= i < |FsCheck.Entries(w.cfg, w.services, w.ous, w.filter)| ==>
               '\n' !in FsCheck.Entries(w.cfg, w.services, w.ous, w.filter)[i].path
    ensures var r := Applied(t, w.cfg, w.services, w.ous, w.filter);
            var entries := FsCheck.Entries(w.cfg, w.services, w.ous, w.filter);
            var explicit := ExplicitMap(w.cfg.rootdir, w.cfg.symlinks);
            && Found(r.nodes, w.cfg.ServiceRoot()).Some? && NoUnexpected(r.nodes, w.cfg.ServiceRoot(), entries, explicit)
            && Found(r.nodes, w.cfg.OrgUnitRoot()).Some? && NoUnexpected(r.nodes, w.cfg.OrgUnitRoot(), entries, explicit)
            && LinksPass(r.nodes, entries) && ExplicitPass(r.nodes, explicit)
            && ValidEntries(entries) && AclsPass(r, entries)
  {
    hide Applied, FsCheck.Entries, Found, NoUnexpected, LinksPass, ExplicitPass, AclsPass;
    FreshApplyPasses(t, w.cfg, w.services, w.ous, w.filter);
    FreshAclsPass(t, w);
  }

  /** The two programs together: apply below an empty root, then check. */
  method ApplyThenCheck(disk: Disk, w: World) returns (err: bool, r: Result<seq<string>>)
    requires w.Valid() && FreshTree(disk.View(false), w) && NotThroughLinks(w.cfg, w.Links())
    requires forall i :: 0 <= i < |FsCheck.Entries(w.cfg, w.services, w.ous, w.filter)| ==>
               '\n' !in FsCheck.Entries(w.cfg, w.services, w.ous, w.filter)[i].path
    modifies disk
    ensures w.cfg.symlinks == [] ==> !err
    ensures !err ==> r == Ok([])
  {
    hide Applied, FsCheck.Entries, Found, NoUnexpected, LinksPass, ExplicitPass, AclsPass, FreshTree, NotThroughLinks, ServicePart, OrgUnitPart;
    ghost var before := disk.View(false);
    err := EnsurePermissions(disk, w.cfg, w.services, w.ous, w.filter);
    if w.cfg.symlinks == [] {
      FreshParts(before, w);
      NoExplicitLinks(before, w);
    }
    if err { return err, Err("apply failed"); }
    ApplyImpliesCheck(before, w);
    r := CheckPermissions(disk.View(false), w.cfg, w.services, w.ous, w.filter);
    NoFailures(r.value);
  }

  lemma NoExplicitLinks(t: Tree, w: World)
    requires w.cfg.symlinks == []
    ensures Applied(t, w.cfg, w.services, w.ous, w.filter) ==
            OrgUnitPart(ServicePart(t, w.cfg, w.services, w.ous, w.filter), w.cfg, w.services, w.ous, w.filter)
  {
    hide ServicePart, OrgUnitPart;
  }

  lemma NoFailures(failures: seq<string>)
    requires forall f :: f in failures ==> f in ["no-unexpected-srv", "no-unexpected-ou", "symlinks", "explicit-symlinks", "acls"]
    requires "no-unexpected-srv" !in failures && "no-unexpected-ou" !in failures && "symlinks" !in failures
    requires "explicit-symlinks" !in failures && "acls" !in failures
    ensures failures == []
  {
    NoElements(failures);
  }
}
