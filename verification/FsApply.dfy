/** The toplevel directories: service tree, org unit tree and explicit links, made by
    steps that stop at the first error. */
module FsApply {
  import opened Strings
  import opened Paths
  import opened Sharing
  import opened FileSystem
  import opened PosixAcl
  import opened DirScripts
  import opened Organization

  datatype ExplicitLink = ExplicitLink(path: string, target: string)

  datatype Config = Config(rootdir: string, serviceDir: string, orgUnitDir: string, symlinks: seq<ExplicitLink>) {
    ghost predicate Valid() {
      && AbsPath(rootdir)
      && CleanName(serviceDir) && CleanName(orgUnitDir) && serviceDir != orgUnitDir
      && forall i :: 0 <= i < |symlinks| ==> RelPath(symlinks[i].path)
    }

    function ServiceRoot(): string {
      rootdir + "/" + serviceDir
    }

    function OrgUnitRoot(): string {
      rootdir + "/" + orgUnitDir
    }
  }

  /** OrgServiceFilter.Accept */
  type Filter = (Service, OrgUnit) -> bool

  ghost predicate CleanOrg(services: seq<Service>, ous: seq<OrgUnit>) {
    && (forall i :: 0 <= i < |services| ==> CleanName(services[i].name) && services[i].access != Unspecified)
    && (forall i :: 0 <= i < |ous| ==> CleanName(ous[i].name))
    && (forall i, j :: 0 <= i < |ous| && 0 <= j < |ous[i].subdirs| ==> CleanName(ous[i].subdirs[j].name))
  }

  // States

  /** The tree, the ACLs of its directories, and the sticky error. */
  datatype Tree = Tree(nodes: Nodes, acls: map<string, DirAcl>, err: bool)

  /** What mkdir by root gives without default ACL under umask 022; every script
      replaces all three modes. */
  const Created := Entries(RWX, [], R_X, [], None, R_X)

  const PlainDir := DirAcl(0, 0, false, Created, None)

  function AclAt(acls: map<string, DirAcl>, p: string): DirAcl {
    if p in acls then acls[p] else PlainDir
  }

  /** runBash with one of the directory scripts: mkdir unless the path leads to a
      directory, then owner, bit and ACL of that directory. */
  function RunScript(t: Tree, path: string, s: DirScript): Tree {
    if t.err then t
    else
      var d := Resolve(t.nodes, path);
      if d.Some? && IsDir(t.nodes, d.value) then
        t.(acls := t.acls[d.value := AfterScript(s, AclAt(t.acls, d.value))])
      else
        match Step(t.nodes, MkdirOp(path))
        case Failed(_) => t.(err := true)
        case Done(nodes) =>
          var p := Locate(t.nodes, path).value;
          Tree(nodes, t.acls[p := AfterScript(s, Inherit(AclAt(t.acls, Parent(p)), RWX, R_X, R_X))], false)
  }

  /** lstat and readlink. */
  predicate IsDestSymlink(nodes: Nodes, dest: string, path: string) {
    var p := Locate(nodes, path);
    p.Some? && p.value in nodes && nodes[p.value] == Link(dest)
  }

  /** os.Symlink unless the link is there; symlink(2) refuses an empty target. */
  function MakeLink(t: Tree, dest: string, path: string): Tree {
    if t.err || IsDestSymlink(t.nodes, dest, path) then t
    else if dest == "" then t.(err := true)
    else
      match Step(t.nodes, SymlinkOp(dest, path))
      case Failed(_) => t.(err := true)
      case Done(nodes) => t.(nodes := nodes)
  }

  datatype Child = Child(name: string, node: Node)

  function ChildNames(nodes: Nodes, d: string): set<string> {
    set q | q in nodes && ChildOf(q, d) :: q[|d| + 1..]
  }

  function Children(nodes: Nodes, d: string, names: seq<string>): (r: seq<Child>)
    requires forall i :: 0 <= i < |names| ==> d + "/" + names[i] in nodes
    ensures |r| == |names|
    ensures forall i :: 0 <= i < |r| ==> r[i] == Child(names[i], nodes[d + "/" + names[i]])
  {
    if names == [] then []
    else
      var n := |names| - 1;
      Children(nodes, d, names[..n]) + [Child(names[n], nodes[d + "/" + names[n]])]
  }

  lemma ChildNameIn(nodes: Nodes, d: string, name: string)
    ensures name in ChildNames(nodes, d) <==> CleanName(name) && d + "/" + name in nodes
  {
    if name in ChildNames(nodes, d) {
      var q :| q in nodes && ChildOf(q, d) && q[|d| + 1..] == name;
      ChildSplit(q, d);
    }
    if CleanName(name) && d + "/" + name in nodes {
      MakeChild(d, name);
      assert (d + "/" + name)[|d| + 1..] == name;
    }
  }

  lemma ChildNamesIn(nodes: Nodes, d: string, names: seq<string>)
    requires Elements(names) <= ChildNames(nodes, d)
    ensures forall i :: 0 <= i < |names| ==> d + "/" + names[i] in nodes
  {
    forall i | 0 <= i < |names| ensures d + "/" + names[i] in nodes {
      assert names[i] in Elements(names);
      ChildNameIn(nodes, d, names[i]);
    }
  }

  /** ioutil.ReadDir: the children in ascending order of their names. */
  ghost function ReadDir(nodes: Nodes, path: string): Option<seq<Child>> {
    var d := Resolve(nodes, path);
    if d.Some? && IsDir(nodes, d.value) then
      var names := SortedSet(ChildNames(nodes, d.value));
      ChildNamesIn(nodes, d.value, names);
      Some(Children(nodes, d.value, names))
    else None
  }

  /** Which children a clean-up looks at: the links below an org unit, or the
      directories below a service. */
  predicate Unexpected(c: Child, expected: set<string>, links: bool) {
    (if links then c.node.Link? else c.node == Dir) && c.name !in expected
  }

  /** os.Remove of one unexpected child; a directory that is not empty stays. */
  function RemoveChild(t: Tree, path: string, links: bool): Tree {
    if t.err then t
    else
      match Step(t.nodes, RemoveOp(path))
      case Done(nodes) => t.(nodes := nodes)
      case Failed(e) => if !links && e == ENOTEMPTY then t else t.(err := true)
  }

  function RemoveChildren(t: Tree, dir: string, cs: seq<Child>, expected: set<string>, links: bool): Tree {
    if cs == [] then t
    else
      var n := |cs| - 1;
      var before := RemoveChildren(t, dir, cs[..n], expected, links);
      if Unexpected(cs[n], expected, links) then RemoveChild(before, dir + "/" + cs[n].name, links) else before
  }

  /** rmUnexpectedSubdirs and rmUnexpectedLinks. */
  ghost function RmUnexpected(t: Tree, dir: string, expected: set<string>, links: bool): Tree {
    if t.err then t
    else
      match ReadDir(t.nodes, dir)
      case None => t.(err := true)
      case Some(cs) => RemoveChildren(t, dir, cs, expected, links)
  }

  // What the trees consist of

  datatype DirJob = DirJob(path: string, script: DirScript)
  datatype LinkJob = LinkJob(path: string, dest: string)

  function RunJobs(t: Tree, jobs: seq<DirJob>): Tree {
    if jobs == [] then t
    else
      var n := |jobs| - 1;
      RunScript(RunJobs(t, jobs[..n]), jobs[n].path, jobs[n].script)
  }

  function RunLinkJobs(t: Tree, jobs: seq<LinkJob>): Tree {
    if jobs == [] then t
    else
      var n := |jobs| - 1;
      MakeLink(RunLinkJobs(t, jobs[..n]), jobs[n].dest, jobs[n].path)
  }

  lemma RunOneMore(t: Tree, jobs: seq<DirJob>, j: DirJob)
    ensures RunJobs(t, jobs + [j]) == RunScript(RunJobs(t, jobs), j.path, j.script)
  {
    assert (jobs + [j])[..|jobs|] == jobs;
  }

  lemma LinkOneMore(t: Tree, jobs: seq<LinkJob>, j: LinkJob)
    ensures RunLinkJobs(t, jobs + [j]) == MakeLink(RunLinkJobs(t, jobs), j.dest, j.path)
  {
    assert (jobs + [j])[..|jobs|] == jobs;
  }

  function ServiceScript(s: Service): DirScript {
    if s.access == AllOrgUnits then
      ServiceAllOrgUnitsSh(s.serviceGroup.gid, s.serviceOpsGroup.gid, s.superGroup.gid)
    else ServiceSh(s.serviceGroup.gid, s.serviceOpsGroup.gid, s.superGroup.gid)
  }

  function SubdirScript(gid: nat, policy: DirPolicy): DirScript {
    match policy
    case GroupPolicy => GroupSubdirSh(gid)
    case OwnerPolicy => OwnerSubdirSh(gid)
    case ManagerPolicy => ManagerSubdirSh(gid)
  }

  function ServiceJob(root: string, s: Service): DirJob {
    DirJob(root + "/" + s.name, ServiceScript(s))
  }

  function SouJob(root: string, s: Service, ou: OrgUnit): DirJob {
    DirJob(root + "/" + s.name + "/" + ou.name,
           ServiceOrgUnitSh(ou.orgUnitGroup.gid, s.serviceGroup.gid, s.serviceOpsGroup.gid, s.superGroup.gid))
  }

  function OrgUnitJob(root: string, ou: OrgUnit): DirJob {
    DirJob(root + "/" + ou.name, OrgUnitSh(ou.orgUnitGroup.gid))
  }

  function SubdirJob(root: string, ou: OrgUnit, d: DirWithPolicy): DirJob {
    DirJob(root + "/" + ou.name + "/" + d.name, SubdirScript(ou.orgUnitGroup.gid, d.policy))
  }

  /** The target of the link `<ou>/<service>`: the top of a service that the org unit
      operates as a facility, else the org unit's part. */
  function LinkDest(serviceDir: string, ou: OrgUnit, s: Service): string {
    var dest := Join(["../..", serviceDir, s.name]);
    if ou.isFacility && s.facility == ou.facility then dest else Join([dest, ou.name])
  }

  function ServiceLinkJob(root: string, serviceDir: string, ou: OrgUnit, s: Service): LinkJob {
    LinkJob(root + "/" + ou.name + "/" + s.name, LinkDest(serviceDir, ou, s))
  }

  function ServiceJobs(root: string, services: seq<Service>): seq<DirJob> {
    if services == [] then []
    else ServiceJobs(root, services[..|services| - 1]) + [ServiceJob(root, services[|services| - 1])]
  }

  /** The org units that use a service. */
  function SouJobs(root: string, s: Service, ous: seq<OrgUnit>, filter: Filter): seq<DirJob> {
    if ous == [] then []
    else
      var n := |ous| - 1;
      SouJobs(root, s, ous[..n], filter) + (if filter(s, ous[n]) then [SouJob(root, s, ous[n])] else [])
  }

  function AcceptedOus(s: Service, ous: seq<OrgUnit>, filter: Filter): set<string> {
    set i | 0 <= i < |ous| && filter(s, ous[i]) :: ous[i].name
  }

  function AcceptedServices(services: seq<Service>, ou: OrgUnit, filter: Filter): set<string> {
    set i | 0 <= i < |services| && filter(services[i], ou) :: services[i].name
  }

  function OrgUnitJobs(root: string, ous: seq<OrgUnit>): seq<DirJob> {
    if ous == [] then []
    else OrgUnitJobs(root, ous[..|ous| - 1]) + [OrgUnitJob(root, ous[|ous| - 1])]
  }

  function OuLinkJobs(root: string, serviceDir: string, ou: OrgUnit, services: seq<Service>, filter: Filter): seq<LinkJob> {
    if services == [] then []
    else
      var n := |services| - 1;
      OuLinkJobs(root, serviceDir, ou, services[..n], filter) +
      (if filter(services[n], ou) then [ServiceLinkJob(root, serviceDir, ou, services[n])] else [])
  }

  function OuSubdirJobs(root: string, ou: OrgUnit, subdirs: seq<DirWithPolicy>): seq<DirJob> {
    if subdirs == [] then []
    else OuSubdirJobs(root, ou, subdirs[..|subdirs| - 1]) + [SubdirJob(root, ou, subdirs[|subdirs| - 1])]
  }

  function SubdirJobs(root: string, ous: seq<OrgUnit>): seq<DirJob> {
    if ous == [] then []
    else
      var n := |ous| - 1;
      SubdirJobs(root, ous[..n]) + OuSubdirJobs(root, ous[n], ous[n].subdirs)
  }

  function ExplicitJobs(root: string, links: seq<ExplicitLink>): seq<LinkJob> {
    if links == [] then []
    else
      var n := |links| - 1;
      ExplicitJobs(root, links[..n]) + [LinkJob(root + "/" + links[n].path, links[n].target)]
  }

  // The whole run

  /** ensureSrvSubdirs for one service. */
  ghost function ServiceSubdirs(t: Tree, root: string, s: Service, ous: seq<OrgUnit>, filter: Filter): Tree {
    RmUnexpected(RunJobs(t, SouJobs(root, s, ous, filter)), root + "/" + s.name, AcceptedOus(s, ous, filter), false)
  }

  ghost function ServiceOrgUnitDirs(
    t: Tree, root: string, services: seq<Service>, ous: seq<OrgUnit>, filter: Filter): Tree
  {
    if services == [] then t
    else
      var n := |services| - 1;
      ServiceSubdirs(ServiceOrgUnitDirs(t, root, services[..n], ous, filter), root, services[n], ous, filter)
  }

  /** ensureOULinks for one org unit. */
  ghost function OrgUnitLinks(
    t: Tree, root: string, serviceDir: string, ou: OrgUnit, services: seq<Service>, filter: Filter): Tree
  {
    RmUnexpected(RunLinkJobs(t, OuLinkJobs(root, serviceDir, ou, services, filter)),
                 root + "/" + ou.name, AcceptedServices(services, ou, filter), true)
  }

  ghost function OrgUnitServiceLinks(
    t: Tree, root: string, serviceDir: string, ous: seq<OrgUnit>, services: seq<Service>, filter: Filter): Tree
  {
    if ous == [] then t
    else
      var n := |ous| - 1;
      OrgUnitLinks(OrgUnitServiceLinks(t, root, serviceDir, ous[..n], services, filter), root, serviceDir, ous[n], services, filter)
  }

  /** The service tree with its root. */
  ghost function ServicePart(t: Tree, cfg: Config, services: seq<Service>, ous: seq<OrgUnit>, filter: Filter): Tree {
    var top := RunScript(t, cfg.ServiceRoot(), ToplevelSh);
    ServiceOrgUnitDirs(RunJobs(top, ServiceJobs(cfg.ServiceRoot(), services)), cfg.ServiceRoot(), services, ous, filter)
  }

  /** The org unit tree with its root. */
  ghost function OrgUnitPart(t: Tree, cfg: Config, services: seq<Service>, ous: seq<OrgUnit>, filter: Filter): Tree {
    var top := RunScript(t, cfg.OrgUnitRoot(), ToplevelSh);
    var dirs := RunJobs(top, OrgUnitJobs(cfg.OrgUnitRoot(), ous));
    RunJobs(OrgUnitServiceLinks(dirs, cfg.OrgUnitRoot(), cfg.serviceDir, ous, services, filter),
            SubdirJobs(cfg.OrgUnitRoot(), ous))
  }

  /** EnsurePermissions; once there is an error, no further step has an effect. */
  ghost function Applied(t: Tree, cfg: Config, services: seq<Service>, ous: seq<OrgUnit>, filter: Filter): Tree {
    RunLinkJobs(OrgUnitPart(ServicePart(t, cfg, services, ous, filter), cfg, services, ous, filter),
                ExplicitJobs(cfg.rootdir, cfg.symlinks))
  }

  // The programs

  class Disk {
    var nodes: Nodes
    var acls: map<string, DirAcl>

    function View(err: bool): Tree
      reads this
    {
      Tree(nodes, acls, err)
    }

    method RunBash(path: string, s: DirScript) returns (err: bool)
      modifies this
      ensures View(err) == RunScript(old(View(false)), path, s)
    {
      var d := Resolve(nodes, path);
      if d.Some? && IsDir(nodes, d.value) {
        acls := acls[d.value := AfterScript(s, AclAt(acls, d.value))];
        return false;
      }
      match Step(nodes, MkdirOp(path)) {
        case Failed(_) => return true;
        case Done(made) =>
          var p := Locate(nodes, path).value;
          nodes, acls := made, acls[p := AfterScript(s, Inherit(AclAt(acls, Parent(p)), RWX, R_X, R_X))];
          return false;
      }
    }

    method EnsureSymlink(dest: string, path: string) returns (err: bool)
      modifies this
      ensures View(err) == MakeLink(old(View(false)), dest, path)
    {
      if IsDestSymlink(nodes, dest, path) { return false; }
      if dest == "" { return true; }
      match Step(nodes, SymlinkOp(dest, path)) {
        case Failed(_) => return true;
        case Done(made) =>
          nodes := made;
          return false;
      }
    }

    method ListDir(path: string) returns (r: Option<seq<Child>>)
      ensures r == ReadDir(nodes, path)
    {
      var d := Resolve(nodes, path);
      if d.None? || !IsDir(nodes, d.value) { return None; }
      var names := [];
      var todo := ChildNames(nodes, d.value);
      while todo != {}
        invariant todo <= ChildNames(nodes, d.value)
        invariant Ascending(names) && Elements(names) == ChildNames(nodes, d.value) - todo
        decreases todo
      {
        var n :| n in todo;
        assert n !in Elements(names);
        names := Insert(n, names);
        todo := todo - {n};
      }
      AscendingUnique(names, SortedSet(ChildNames(nodes, d.value)));
      ChildNamesIn(nodes, d.value, names);
      return Some(Children(nodes, d.value, names));
    }

    method RemoveChildAt(path: string, links: bool) returns (err: bool)
      modifies this
      ensures View(err) == RemoveChild(old(View(false)), path, links)
    {
      match Step(nodes, RemoveOp(path)) {
        case Done(less) =>
          nodes := less;
          return false;
        case Failed(e) => return links || e != ENOTEMPTY;
      }
    }

    method RemoveUnexpected(dir: string, expected: set<string>, links: bool) returns (err: bool)
      modifies this
      ensures View(err) == RmUnexpected(old(View(false)), dir, expected, links)
    {
      hide RemoveChild, Unexpected, ReadDir;
      ghost var before := View(false);
      var children := ListDir(dir);
      if children.None? { return true; }
      var cs := children.value;
      for i := 0 to |cs|
        invariant View(false) == RemoveChildren(before, dir, cs[..i], expected, links)
      {
        Last(cs, i);
        if !Unexpected(cs[i], expected, links) { continue; }
        err := RemoveChildAt(dir + "/" + cs[i].name, links);
        if err {
          ErrStays(before, dir, cs, i + 1, expected, links);
          return;
        }
      }
      assert cs[..|cs|] == cs;
      return false;
    }
  }

  lemma {:induction false} ErrStays(t: Tree, dir: string, cs: seq<Child>, k: nat, expected: set<string>, links: bool)
    requires k <= |cs| && RemoveChildren(t, dir, cs[..k], expected, links).err
    ensures RemoveChildren(t, dir, cs, expected, links) == RemoveChildren(t, dir, cs[..k], expected, links)
  {
    hide Unexpected;
    if k == |cs| {
      assert cs[..k] == cs;
    } else {
      var n := |cs| - 1;
      assert cs[..n][..k] == cs[..k];
      ErrStays(t, dir, cs[..n], k, expected, links);
    }
  }

  lemma {:induction false} ErrJobs(t: Tree, jobs: seq<DirJob>, k: nat)
    requires k <= |jobs| && RunJobs(t, jobs[..k]).err
    ensures RunJobs(t, jobs) == RunJobs(t, jobs[..k])
  {
    hide RunScript;
    if k == |jobs| {
      assert jobs[..k] == jobs;
    } else {
      var n := |jobs| - 1;
      assert jobs[..n][..k] == jobs[..k];
      ErrJobs(t, jobs[..n], k);
      ErrNoScript(RunJobs(t, jobs[..n]), jobs[n]);
    }
  }

  lemma ErrNoScript(t: Tree, job: DirJob)
    requires t.err
    ensures RunScript(t, job.path, job.script) == t
  {
  }

  lemma ErrNoLink(t: Tree, job: LinkJob)
    requires t.err
    ensures MakeLink(t, job.dest, job.path) == t
  {
  }

  lemma ErrNoJobs(t: Tree, jobs: seq<DirJob>)
    requires t.err
    ensures RunJobs(t, jobs) == t
  {
    ErrJobs(t, jobs, 0);
  }

  lemma {:induction false} ErrNoLinks(t: Tree, jobs: seq<LinkJob>)
    requires t.err
    ensures RunLinkJobs(t, jobs) == t
  {
    hide MakeLink;
    if jobs != [] {
      ErrNoLinks(t, jobs[..|jobs| - 1]);
      ErrNoLink(t, jobs[|jobs| - 1]);
    }
  }

  lemma {:induction false} ServiceJobsPrefix(root: string, services: seq<Service>, k: nat)
    requires k <= |services|
    ensures |ServiceJobs(root, services)| == |services|
    ensures ServiceJobs(root, services)[..k] == ServiceJobs(root, services[..k])
  {
    if services != [] {
      var n := |services| - 1;
      if k == |services| {
        ServiceJobsPrefix(root, services[..n], n);
        assert services[..k] == services;
      } else {
        ServiceJobsPrefix(root, services[..n], k);
        assert services[..n][..k] == services[..k];
      }
    }
  }

  lemma {:induction false} OrgUnitJobsPrefix(root: string, ous: seq<OrgUnit>, k: nat)
    requires k <= |ous|
    ensures |OrgUnitJobs(root, ous)| == |ous|
    ensures OrgUnitJobs(root, ous)[..k] == OrgUnitJobs(root, ous[..k])
  {
    if ous != [] {
      var n := |ous| - 1;
      if k == |ous| {
        OrgUnitJobsPrefix(root, ous[..n], n);
        assert ous[..k] == ous;
      } else {
        OrgUnitJobsPrefix(root, ous[..n], k);
        assert ous[..n][..k] == ous[..k];
      }
    }
  }

  lemma Last<T>(s: seq<T>, i: nat)
    requires i < |s|
    ensures s[..i + 1][..i] == s[..i] && s[..i + 1][i] == s[i] && |s[..i + 1]| == i + 1
  {
  }

  method EnsureServiceDir(disk: Disk, path: string, s: Service) returns (err: bool)
    modifies disk
    ensures disk.View(err) == RunScript(old(disk.View(false)), path, ServiceScript(s))
  {
    var gid, opsGid, superGid := s.serviceGroup.gid, s.serviceOpsGroup.gid, s.superGroup.gid;
    if s.access == AllOrgUnits {
      err := disk.RunBash(path, ServiceAllOrgUnitsSh(gid, opsGid, superGid));
    } else {
      err := disk.RunBash(path, ServiceSh(gid, opsGid, superGid));
    }
  }

  /** The service tree. */
  class ServiceTree {
    const disk: Disk
    const root: string
    const services: seq<Service>
    const orgUnits: seq<OrgUnit>
    const filter: Filter
    var err: bool

    constructor (disk: Disk, root: string, services: seq<Service>, orgUnits: seq<OrgUnit>, filter: Filter)
      ensures this.disk == disk && this.root == root && this.services == services
      ensures this.orgUnits == orgUnits && this.filter == filter && !err
    {
      this.disk, this.root, this.services := disk, root, services;
      this.orgUnits, this.filter, err := orgUnits, filter, false;
    }

    method EnsureServiceDirs()
      modifies this`err, disk
      ensures disk.View(err) == RunJobs(old(disk.View(err)), ServiceJobs(root, services))
    {
      hide RunScript, RunJobs;
      ghost var before := disk.View(err);
      NoLinkJobs(before);
      ghost var jobs := ServiceJobs(root, services);
      if err {
        ErrNoJobs(before, jobs);
        return;
      }
      for i := 0 to |services|
        invariant !err && disk.View(false) == RunJobs(before, ServiceJobs(root, services[..i]))
      {
        Last(services, i);
        var s := services[i];
        err := EnsureServiceDir(disk, root + "/" + s.name, s);
        RunOneMore(before, ServiceJobs(root, services[..i]), ServiceJob(root, s));
        if err {
          ServiceJobsPrefix(root, services, i + 1);
          ErrJobs(before, jobs, i + 1);
          return;
        }
      }
      assert services[..|services|] == services;
    }

    method EnsureServiceOrgUnitDirs()
      modifies this`err, disk
      ensures disk.View(err) == ServiceOrgUnitDirs(old(disk.View(err)), root, services, orgUnits, filter)
    {
      hide ServiceSubdirs, OrgUnitLinks;
      ghost var before := disk.View(err);
      for i := 0 to |services|
        invariant disk.View(err) == ServiceOrgUnitDirs(before, root, services[..i], orgUnits, filter)
      {
        Last(services, i);
        EnsureSrvSubdirs(services[i]);
      }
      assert services[..|services|] == services;
    }

    method EnsureSrvSubdirs(s: Service)
      modifies this`err, disk
      ensures disk.View(err) == ServiceSubdirs(old(disk.View(err)), root, s, orgUnits, filter)
    {
      hide RunScript, RunJobs, ReadDir, RemoveChildren;
      ghost var before := disk.View(err);
      NoLinkJobs(before);
      if err {
        ErrNoJobs(before, SouJobs(root, s, orgUnits, filter));
        return;
      }
      var expected: set<string> := {};
      for i := 0 to |orgUnits|
        invariant disk.View(err) == RunJobs(before, SouJobs(root, s, orgUnits[..i], filter))
        invariant expected == AcceptedOus(s, orgUnits[..i], filter)
      {
        Last(orgUnits, i);
        AcceptedOneMore(s, orgUnits, i, filter);
        if filter(s, orgUnits[i]) {
          expected := expected + {orgUnits[i].name};
          EnsureSou(s, orgUnits[i]);
          RunOneMore(before, SouJobs(root, s, orgUnits[..i], filter), SouJob(root, s, orgUnits[i]));
        } else {
          assert SouJobs(root, s, orgUnits[..i + 1], filter) == SouJobs(root, s, orgUnits[..i], filter);
        }
      }
      assert orgUnits[..|orgUnits|] == orgUnits;
      if err { return; }
      err := disk.RemoveUnexpected(root + "/" + s.name, expected, false);
    }

    method EnsureSou(s: Service, ou: OrgUnit)
      modifies this`err, disk
      ensures disk.View(err) == RunScript(old(disk.View(err)), SouJob(root, s, ou).path, SouJob(root, s, ou).script)
    {
      if err { return; }
      err := disk.RunBash(root + "/" + s.name + "/" + ou.name,
        ServiceOrgUnitSh(ou.orgUnitGroup.gid, s.serviceGroup.gid, s.serviceOpsGroup.gid, s.superGroup.gid));
    }
  }

  lemma AcceptedOneMore(s: Service, ous: seq<OrgUnit>, i: nat, filter: Filter)
    requires i < |ous|
    ensures AcceptedOus(s, ous[..i + 1], filter) ==
            AcceptedOus(s, ous[..i], filter) + (if filter(s, ous[i]) then {ous[i].name} else {})
  {
    Last(ous, i);
    var less, more := ous[..i], ous[..i + 1];
    forall n ensures n in AcceptedOus(s, more, filter) <==>
                     n in AcceptedOus(s, less, filter) || (filter(s, ous[i]) && n == ous[i].name)
    {
      if n in AcceptedOus(s, more, filter) {
        var k :| 0 <= k < |more| && filter(s, more[k]) && more[k].name == n;
        assert k < i ==> less[k] == more[k];
      }
      if n in AcceptedOus(s, less, filter) {
        var k :| 0 <= k < |less| && filter(s, less[k]) && less[k].name == n;
        assert more[k] == less[k];
      }
      if filter(s, ous[i]) && n == ous[i].name { assert more[i].name == n; }
    }
  }

  lemma AcceptedServicesOneMore(services: seq<Service>, i: nat, ou: OrgUnit, filter: Filter)
    requires i < |services|
    ensures AcceptedServices(services[..i + 1], ou, filter) ==
            AcceptedServices(services[..i], ou, filter) + (if filter(services[i], ou) then {services[i].name} else {})
  {
    Last(services, i);
    var less, more := services[..i], services[..i + 1];
    forall n ensures n in AcceptedServices(more, ou, filter) <==>
                     n in AcceptedServices(less, ou, filter) || (filter(services[i], ou) && n == services[i].name)
    {
      if n in AcceptedServices(more, ou, filter) {
        var k :| 0 <= k < |more| && filter(more[k], ou) && more[k].name == n;
        assert k < i ==> less[k] == more[k];
      }
      if n in AcceptedServices(less, ou, filter) {
        var k :| 0 <= k < |less| && filter(less[k], ou) && less[k].name == n;
        assert more[k] == less[k];
      }
      if filter(services[i], ou) && n == services[i].name { assert more[i].name == n; }
    }
  }

  /** The org unit tree. */
  class OrgUnitTree {
    const disk: Disk
    const root: string
    const serviceDir: string
    const services: seq<Service>
    const orgUnits: seq<OrgUnit>
    const filter: Filter
    var err: bool

    constructor (
      disk: Disk, root: string, serviceDir: string, services: seq<Service>, orgUnits: seq<OrgUnit>, filter: Filter)
      ensures this.disk == disk && this.root == root && this.serviceDir == serviceDir && this.services == services
      ensures this.orgUnits == orgUnits && this.filter == filter && !err
    {
      this.disk, this.root, this.serviceDir, this.services := disk, root, serviceDir, services;
      this.orgUnits, this.filter, err := orgUnits, filter, false;
    }

    method EnsureOrgUnitDirs()
      modifies this`err, disk
      ensures disk.View(err) == RunJobs(old(disk.View(err)), OrgUnitJobs(root, orgUnits))
    {
      hide RunScript, RunJobs;
      ghost var before := disk.View(err);
      NoLinkJobs(before);
      ghost var jobs := OrgUnitJobs(root, orgUnits);
      if err {
        ErrNoJobs(before, jobs);
        return;
      }
      for i := 0 to |orgUnits|
        invariant !err && disk.View(false) == RunJobs(before, OrgUnitJobs(root, orgUnits[..i]))
      {
        Last(orgUnits, i);
        var o := orgUnits[i];
        err := disk.RunBash(root + "/" + o.name, OrgUnitSh(o.orgUnitGroup.gid));
        RunOneMore(before, OrgUnitJobs(root, orgUnits[..i]), OrgUnitJob(root, o));
        if err {
          OrgUnitJobsPrefix(root, orgUnits, i + 1);
          ErrJobs(before, jobs, i + 1);
          return;
        }
      }
      assert orgUnits[..|orgUnits|] == orgUnits;
    }

    method EnsureOrgUnitServiceLinks()
      modifies this`err, disk
      ensures disk.View(err) == OrgUnitServiceLinks(old(disk.View(err)), root, serviceDir, orgUnits, services, filter)
    {
      hide ServiceSubdirs, OrgUnitLinks;
      ghost var before := disk.View(err);
      for i := 0 to |orgUnits|
        invariant disk.View(err) == OrgUnitServiceLinks(before, root, serviceDir, orgUnits[..i], services, filter)
      {
        Last(orgUnits, i);
        EnsureOuLinks(orgUnits[i]);
      }
      assert orgUnits[..|orgUnits|] == orgUnits;
    }

    method EnsureOuLinks(ou: OrgUnit)
      modifies this`err, disk
      ensures disk.View(err) == OrgUnitLinks(old(disk.View(err)), root, serviceDir, ou, services, filter)
    {
      hide MakeLink, RunLinkJobs, ReadDir, RemoveChildren, ServiceLinkJob;
      ghost var before := disk.View(err);
      NoLinkJobs(before);
      var expected: set<string> := {};
      for i := 0 to |services|
        invariant disk.View(err) == RunLinkJobs(before, OuLinkJobs(root, serviceDir, ou, services[..i], filter))
        invariant expected == AcceptedServices(services[..i], ou, filter)
      {
        Last(services, i);
        AcceptedServicesOneMore(services, i, ou, filter);
        if filter(services[i], ou) {
          expected := expected + {services[i].name};
          EnsureOuSLn(ou, services[i]);
          LinkOneMore(before, OuLinkJobs(root, serviceDir, ou, services[..i], filter),
            ServiceLinkJob(root, serviceDir, ou, services[i]));
        } else {
          assert OuLinkJobs(root, serviceDir, ou, services[..i + 1], filter) ==
                 OuLinkJobs(root, serviceDir, ou, services[..i], filter);
        }
      }
      assert services[..|services|] == services;
      if err { return; }
      err := disk.RemoveUnexpected(root + "/" + ou.name, expected, true);
    }

    method EnsureOuSLn(ou: OrgUnit, s: Service)
      modifies this`err, disk
      ensures disk.View(err) ==
              MakeLink(old(disk.View(err)), ServiceLinkJob(root, serviceDir, ou, s).dest, ServiceLinkJob(root, serviceDir, ou, s).path)
    {
      if err { return; }
      var path := root + "/" + ou.name + "/" + s.name;
      var dest := Join(["../..", serviceDir, s.name]);
      if !(ou.isFacility && s.facility == ou.facility) { dest := Join([dest, ou.name]); }
      err := disk.EnsureSymlink(dest, path);
    }

    method EnsureOrgUnitSubdirs()
      modifies this`err, disk
      ensures disk.View(err) == RunJobs(old(disk.View(err)), SubdirJobs(root, orgUnits))
    {
      hide RunScript, RunJobs;
      ghost var before := disk.View(err);
      NoLinkJobs(before);
      for i := 0 to |orgUnits|
        invariant disk.View(err) == RunJobs(before, SubdirJobs(root, orgUnits[..i]))
      {
        Last(orgUnits, i);
        var o := orgUnits[i];
        ghost var done := SubdirJobs(root, orgUnits[..i]);
        assert done + OuSubdirJobs(root, o, []) == done;
        for j := 0 to |o.subdirs|
          invariant disk.View(err) == RunJobs(before, done + OuSubdirJobs(root, o, o.subdirs[..j]))
        {
          Last(o.subdirs, j);
          EnsureSubdir(o, o.subdirs[j]);
          var job := SubdirJob(root, o, o.subdirs[j]);
          RunOneMore(before, done + OuSubdirJobs(root, o, o.subdirs[..j]), job);
          assert done + OuSubdirJobs(root, o, o.subdirs[..j + 1]) == done + OuSubdirJobs(root, o, o.subdirs[..j]) + [job];
        }
        assert o.subdirs[..|o.subdirs|] == o.subdirs;
      }
      assert orgUnits[..|orgUnits|] == orgUnits;
    }

    method EnsureSubdir(o: OrgUnit, d: DirWithPolicy)
      modifies this`err, disk
      ensures disk.View(err) == RunScript(old(disk.View(err)), SubdirJob(root, o, d).path, SubdirJob(root, o, d).script)
    {
      if err { return; }
      var path := root + "/" + o.name + "/" + d.name;
      var gid := o.orgUnitGroup.gid;
      match d.policy {
        case GroupPolicy => err := disk.RunBash(path, GroupSubdirSh(gid));
        case OwnerPolicy => err := disk.RunBash(path, OwnerSubdirSh(gid));
        case ManagerPolicy => err := disk.RunBash(path, ManagerSubdirSh(gid));
      }
    }
  }

  /** The whole run; it stops at the first error. */
  method EnsurePermissions(disk: Disk, cfg: Config, services: seq<Service>, ous: seq<OrgUnit>, filter: Filter)
    returns (err: bool)
    modifies disk
    ensures disk.View(err) == Applied(old(disk.View(false)), cfg, services, ous, filter)
  {
    hide RunScript, RunJobs, RunLinkJobs, ServiceOrgUnitDirs, OrgUnitServiceLinks, MakeLink;
    ghost var before := disk.View(false);
    err := disk.RunBash(cfg.ServiceRoot(), ToplevelSh);
    if err {
      ErrServicePart(disk.View(true), cfg, services, ous, filter);
      ErrOrgUnitPart(disk.View(true), cfg, services, ous, filter);
      return;
    }
    var st := new ServiceTree(disk, cfg.ServiceRoot(), services, ous, filter);
    st.EnsureServiceDirs();
    st.EnsureServiceOrgUnitDirs();
    assert disk.View(st.err) == ServicePart(before, cfg, services, ous, filter);
    if st.err {
      ErrOrgUnitPart(disk.View(true), cfg, services, ous, filter);
      return true;
    }
    ghost var middle := disk.View(false);
    err := disk.RunBash(cfg.OrgUnitRoot(), ToplevelSh);
    if err {
      ErrRest(disk.View(true), cfg, services, ous, filter);
      return;
    }
    var ot := new OrgUnitTree(disk, cfg.OrgUnitRoot(), cfg.serviceDir, services, ous, filter);
    ot.EnsureOrgUnitDirs();
    ot.EnsureOrgUnitServiceLinks();
    ot.EnsureOrgUnitSubdirs();
    assert disk.View(ot.err) == OrgUnitPart(middle, cfg, services, ous, filter);
    if ot.err {
      ErrNoLinks(disk.View(true), ExplicitJobs(cfg.rootdir, cfg.symlinks));
      return true;
    }
    err := EnsureSymlinks(disk, cfg.rootdir, cfg.symlinks);
  }

  method EnsureSymlinks(disk: Disk, root: string, links: seq<ExplicitLink>) returns (err: bool)
    modifies disk
    ensures disk.View(err) == RunLinkJobs(old(disk.View(false)), ExplicitJobs(root, links))
  {
    hide MakeLink, RunLinkJobs;
    ghost var before := disk.View(false);
    NoLinkJobs(before);
    for i := 0 to |links|
      invariant disk.View(false) == RunLinkJobs(before, ExplicitJobs(root, links[..i]))
    {
      Last(links, i);
      err := disk.EnsureSymlink(links[i].target, root + "/" + links[i].path);
      LinkOneMore(before, ExplicitJobs(root, links[..i]), LinkJob(root + "/" + links[i].path, links[i].target));
      if err {
        ErrExplicit(before, root, links, i + 1);
        return;
      }
    }
    assert links[..|links|] == links;
    return false;
  }

  lemma NoLinkJobs(t: Tree)
    ensures RunLinkJobs(t, []) == t && RunJobs(t, []) == t
  {
  }

  // After an error nothing happens

  lemma {:induction false} ErrExplicit(t: Tree, root: string, links: seq<ExplicitLink>, k: nat)
    requires k <= |links| && RunLinkJobs(t, ExplicitJobs(root, links[..k])).err
    ensures RunLinkJobs(t, ExplicitJobs(root, links)) == RunLinkJobs(t, ExplicitJobs(root, links[..k]))
  {
    hide MakeLink, RunLinkJobs;
    if k == |links| {
      assert links[..k] == links;
    } else {
      var n := |links| - 1;
      assert links[..n][..k] == links[..k];
      ErrExplicit(t, root, links[..n], k);
      var job := LinkJob(root + "/" + links[n].path, links[n].target);
      LinkOneMore(t, ExplicitJobs(root, links[..n]), job);
      ErrNoLink(RunLinkJobs(t, ExplicitJobs(root, links[..n])), job);
    }
  }

  lemma {:induction false} ErrServices(t: Tree, root: string, services: seq<Service>, ous: seq<OrgUnit>, filter: Filter)
    requires t.err
    ensures ServiceOrgUnitDirs(t, root, services, ous, filter) == t
  {
    if services != [] {
      var n := |services| - 1;
      ErrServices(t, root, services[..n], ous, filter);
      ErrNoJobs(t, SouJobs(root, services[n], ous, filter));
    }
  }

  lemma ErrServicePart(t: Tree, cfg: Config, services: seq<Service>, ous: seq<OrgUnit>, filter: Filter)
    requires t.err
    ensures ServiceOrgUnitDirs(RunJobs(t, ServiceJobs(cfg.ServiceRoot(), services)), cfg.ServiceRoot(), services, ous, filter) == t
  {
    ErrNoJobs(t, ServiceJobs(cfg.ServiceRoot(), services));
    ErrServices(t, cfg.ServiceRoot(), services, ous, filter);
  }

  lemma {:induction false} ErrOus(
    t: Tree, root: string, serviceDir: string, ous: seq<OrgUnit>, services: seq<Service>, filter: Filter)
    requires t.err
    ensures OrgUnitServiceLinks(t, root, serviceDir, ous, services, filter) == t
  {
    if ous != [] {
      var n := |ous| - 1;
      ErrOus(t, root, serviceDir, ous[..n], services, filter);
      ErrNoLinks(t, OuLinkJobs(root, serviceDir, ous[n], services, filter));
    }
  }

  lemma ErrRest(t: Tree, cfg: Config, services: seq<Service>, ous: seq<OrgUnit>, filter: Filter)
    requires t.err
    ensures RunLinkJobs(
              RunJobs(
                OrgUnitServiceLinks(
                  RunJobs(t, OrgUnitJobs(cfg.OrgUnitRoot(), ous)), cfg.OrgUnitRoot(), cfg.serviceDir, ous, services, filter),
                SubdirJobs(cfg.OrgUnitRoot(), ous)),
              ExplicitJobs(cfg.rootdir, cfg.symlinks)) == t
  {
    ErrNoJobs(t, OrgUnitJobs(cfg.OrgUnitRoot(), ous));
    ErrOus(t, cfg.OrgUnitRoot(), cfg.serviceDir, ous, services, filter);
    ErrNoJobs(t, SubdirJobs(cfg.OrgUnitRoot(), ous));
    ErrNoLinks(t, ExplicitJobs(cfg.rootdir, cfg.symlinks));
  }

  lemma ErrOrgUnitPart(t: Tree, cfg: Config, services: seq<Service>, ous: seq<OrgUnit>, filter: Filter)
    requires t.err
    ensures RunLinkJobs(OrgUnitPart(t, cfg, services, ous, filter), ExplicitJobs(cfg.rootdir, cfg.symlinks)) == t
  {
    ErrRest(t, cfg, services, ous, filter);
  }
}
