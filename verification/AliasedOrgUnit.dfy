/** An org unit directory that is a link to the directory of a later org unit: a whole
    run without error after which the check of the same configuration fails. */
module AliasedOrgUnit {
  import opened Strings
  import opened Paths
  import opened Sharing
  import opened FileSystem
  import opened PosixAcl
  import opened DirScripts
  import opened Organization
  import opened FsApply
  import opened ApplySteps
  import opened FsCheck
  import opened ApplySymlinks
  import opened ApplyLinks

  /** Two org units `a` and `b` in this order and a service that only `a` uses. */
  datatype Alias = Alias(cfg: Config, s: Service, a: OrgUnit, b: OrgUnit, filter: Filter) {
    ghost predicate Valid() {
      && cfg.Valid() && cfg.symlinks == [] && CleanOrg([s], [a, b])
      && a.name != b.name && a.subdirs == [] && b.subdirs == []
      && filter(s, a) && !filter(s, b)
    }

    function OrgDir(): string {
      cfg.OrgUnitRoot()
    }

    function ServiceTop(): string {
      cfg.ServiceRoot()
    }

    function A(): string {
      OrgDir() + "/" + a.name
    }

    function B(): string {
      OrgDir() + "/" + b.name
    }

    function Srv(): string {
      ServiceTop() + "/" + s.name
    }

    function SrvA(): string {
      Srv() + "/" + a.name
    }

    /** Below the root there are only the org unit directory, `b` in it, and the link from
        `a` to `b`. */
    ghost predicate Start(nodes: Nodes) {
      && WellFormed(nodes) && IsDir(nodes, cfg.rootdir)
      && IsDir(nodes, OrgDir()) && IsDir(nodes, B()) && A() in nodes && nodes[A()] == Link(b.name)
      && forall q :: q in nodes && Below(q, cfg.rootdir) ==> q in {OrgDir(), A(), B()}
    }

    /** The tree after the service part. */
    function Served(nodes: Nodes): Nodes {
      nodes[ServiceTop() := Dir][Srv() := Dir][SrvA() := Dir]
    }
  }

  lemma Names(x: Alias)
    requires x.Valid()
    ensures KeyPath(x.cfg.rootdir) && KeyPath(x.OrgDir()) && KeyPath(x.ServiceTop()) && KeyPath(x.Srv())
    ensures ChildOf(x.OrgDir(), x.cfg.rootdir) && ChildOf(x.ServiceTop(), x.cfg.rootdir)
    ensures ChildOf(x.A(), x.OrgDir()) && ChildOf(x.B(), x.OrgDir())
    ensures ChildOf(x.Srv(), x.ServiceTop()) && ChildOf(x.SrvA(), x.Srv())
    ensures CleanName(x.a.name) && CleanName(x.b.name) && CleanName(x.s.name)
    ensures x.A() != x.B() && x.OrgDir() != x.ServiceTop()
  {
    assert [x.s][0] == x.s && [x.a, x.b][0] == x.a && [x.a, x.b][1] == x.b;
    AbsIsKey(x.cfg.rootdir);
    KeyChild(x.cfg.rootdir, x.cfg.orgUnitDir);
    KeyChild(x.cfg.rootdir, x.cfg.serviceDir);
    KeyChild(x.ServiceTop(), x.s.name);
    MakeChild(x.cfg.rootdir, x.cfg.orgUnitDir);
    MakeChild(x.cfg.rootdir, x.cfg.serviceDir);
    MakeChild(x.OrgDir(), x.a.name);
    MakeChild(x.OrgDir(), x.b.name);
    MakeChild(x.ServiceTop(), x.s.name);
    MakeChild(x.Srv(), x.a.name);
    assert x.A()[|x.OrgDir()| + 1..] == x.a.name && x.B()[|x.OrgDir()| + 1..] == x.b.name;
    assert x.OrgDir()[|x.cfg.rootdir| + 1..] == x.cfg.orgUnitDir && x.ServiceTop()[|x.cfg.rootdir| + 1..] == x.cfg.serviceDir;
  }

  /** A script makes the directory, and nothing else of the tree changes. */
  lemma DirMade(t: Tree, d: string, n: string, s: DirScript)
    requires WellFormed(t.nodes) && !t.err && KeyPath(d) && CleanName(n) && IsDir(t.nodes, d)
    requires d + "/" + n in t.nodes ==> t.nodes[d + "/" + n] == Dir
    ensures var r := RunScript(t, d + "/" + n, s);
            !r.err && WellFormed(r.nodes) && r.nodes == t.nodes[d + "/" + n := Dir]
  {
    hide RunScript, WellFormed;
    DirHasNoLinks(t.nodes, d);
    ScriptPlain(t, d, n, s);
    if d + "/" + n in t.nodes { assert t.nodes[d + "/" + n := Dir] == t.nodes; }
  }

  /** Nothing of the start lies in the service tree. */
  lemma NoServiceTree(x: Alias, nodes: Nodes)
    requires x.Valid() && x.Start(nodes)
    ensures x.ServiceTop() !in nodes && x.Srv() !in nodes && x.SrvA() !in nodes
    ensures forall q :: q in nodes ==> !ChildOf(q, x.Srv())
  {
    hide WellFormed;
    Names(x);
    if x.ServiceTop() in nodes {
      assert x.ServiceTop() in {x.OrgDir(), x.A(), x.B()};
      OneLevel(x);
    }
    forall q ensures q in nodes ==> !Below(q, x.ServiceTop()) {
      if q in nodes && Below(q, x.ServiceTop()) { AncestorsAreDirs(nodes, q, x.ServiceTop()); }
    }
    forall q | ChildOf(q, x.Srv()) ensures Below(q, x.ServiceTop()) {
      BelowTransitive(q, x.Srv(), x.ServiceTop());
    }
  }

  lemma OneLevel(x: Alias)
    requires x.Valid()
    ensures x.ServiceTop() != x.A() && x.ServiceTop() != x.B()
  {
    Names(x);
    if x.ServiceTop() == x.A() { ChildParent(x.ServiceTop(), x.OrgDir()); }
    ChildParent(x.A(), x.OrgDir());
    ChildParent(x.B(), x.OrgDir());
    ChildParent(x.ServiceTop(), x.cfg.rootdir);
    assert |x.OrgDir()| > |x.cfg.rootdir|;
  }

  lemma ChildParent(p: string, d: string)
    requires ChildOf(p, d)
    ensures Parent(p) == d
  {
    ChildSplit(p, d);
  }

  /** The service part makes its three directories and finds nothing to remove. */
  lemma ServedWithoutError(x: Alias, t: Tree)
    requires x.Valid() && x.Start(t.nodes) && !t.err
    ensures var r := ServicePart(t, x.cfg, [x.s], [x.a, x.b], x.filter);
            !r.err && WellFormed(r.nodes) && r.nodes == x.Served(t.nodes)
  {
    hide RunScript, WellFormed, RmUnexpected;
    Names(x);
    NoServiceTree(x, t.nodes);
    DirMade(t, x.cfg.rootdir, x.cfg.serviceDir, ToplevelSh);
    var top := RunScript(t, x.ServiceTop(), ToplevelSh);
    var job := ServiceJob(x.ServiceTop(), x.s);
    DirMade(top, x.ServiceTop(), x.s.name, job.script);
    var srv := RunScript(top, x.Srv(), job.script);
    OneServiceJob(top, x.ServiceTop(), x.s);
    var sou := SouJob(x.ServiceTop(), x.s, x.a);
    DirMade(srv, x.Srv(), x.a.name, sou.script);
    var made := RunScript(srv, x.SrvA(), sou.script);
    OneSouJob(srv, x);
    OnlyServiceLoop(srv, x);
    SrvClean(x, t.nodes, made);
  }

  lemma OneServiceJob(t: Tree, root: string, s: Service)
    ensures RunJobs(t, ServiceJobs(root, [s])) == RunScript(t, root + "/" + s.name, ServiceJob(root, s).script)
  {
    hide RunScript;
    assert [s][..0] == [];
    var jobs := ServiceJobs(root, [s]);
    assert ServiceJobs(root, []) == [];
    assert jobs == [ServiceJob(root, s)];
    assert jobs[..0] == [];
  }

  lemma OneSouJob(t: Tree, x: Alias)
    requires x.Valid()
    ensures RunJobs(t, SouJobs(x.ServiceTop(), x.s, [x.a, x.b], x.filter)) ==
            RunScript(t, x.SrvA(), SouJob(x.ServiceTop(), x.s, x.a).script)
    ensures AcceptedOus(x.s, [x.a, x.b], x.filter) == {x.a.name}
  {
    hide RunScript;
    var ous := [x.a, x.b];
    assert ous[..1] == [x.a] && [x.a][..0] == [];
    var jobs := SouJobs(x.ServiceTop(), x.s, ous, x.filter);
    assert SouJobs(x.ServiceTop(), x.s, [x.a], x.filter) == [SouJob(x.ServiceTop(), x.s, x.a)];
    assert jobs == [SouJob(x.ServiceTop(), x.s, x.a)];
    assert jobs[..0] == [];
    assert ous[0] == x.a && ous[1] == x.b;
  }

  lemma OnlyServiceLoop(t: Tree, x: Alias)
    ensures ServiceOrgUnitDirs(t, x.ServiceTop(), [x.s], [x.a, x.b], x.filter) ==
            ServiceSubdirs(t, x.ServiceTop(), x.s, [x.a, x.b], x.filter)
  {
    hide ServiceSubdirs;
    assert [x.s][..0] == [];
  }

  lemma SrvClean(x: Alias, start: Nodes, made: Tree)
    requires x.Valid() && x.Start(start) && !made.err && WellFormed(made.nodes) && made.nodes == x.Served(start)
    ensures RmUnexpected(made, x.Srv(), {x.a.name}, false) == made
  {
    hide WellFormed, RmUnexpected, Resolve;
    Names(x);
    NoServiceTree(x, start);
    ResolveDir(made.nodes, x.Srv());
    forall p ensures !MayGo(made.nodes, x.Srv(), {x.a.name}, false, p) {
      if p in made.nodes && ChildOf(p, x.Srv()) {
        NotOwnChild(x, p);
        assert p == x.SrvA() && p[|x.Srv()| + 1..] == x.a.name;
      }
    }
    CleanAlready(made, x.Srv(), {x.a.name}, false);
  }

  lemma NotOwnChild(x: Alias, p: string)
    requires x.Valid() && ChildOf(p, x.Srv())
    ensures p != x.Srv() && p != x.ServiceTop()
  {
    Names(x);
    ChildParent(p, x.Srv());
    ChildParent(x.Srv(), x.ServiceTop());
    ChildParent(x.ServiceTop(), x.cfg.rootdir);
  }

  // The org unit part

  /** The start with its service tree, as the org unit part finds it. */
  ghost predicate Found(x: Alias, start: Nodes, t: Tree) {
    && x.Valid() && x.Start(start) && WellFormed(t.nodes) && t.nodes == x.Served(start) && !t.err
  }

  lemma StillAlias(x: Alias, start: Nodes, t: Tree)
    requires Found(x, start, t)
    ensures IsDir(t.nodes, x.cfg.rootdir) && IsDir(t.nodes, x.OrgDir()) && IsDir(t.nodes, x.B())
    ensures x.A() in t.nodes && t.nodes[x.A()] == Link(x.b.name)
    ensures Resolve(t.nodes, x.A()) == Some(x.B()) && Resolve(t.nodes, x.B()) == Some(x.B())
    ensures forall q :: q in t.nodes ==> !ChildOf(q, x.B())
  {
    hide Resolve, WellFormed, KeyPath, Below;
    Names(x);
    NoServiceTree(x, start);
    ResolveAlias(t.nodes, x.OrgDir(), x.a.name, x.b.name);
    ResolveDir(t.nodes, x.B());
    NothingInB(x, start, t);
  }

  lemma NothingInB(x: Alias, start: Nodes, t: Tree)
    requires Found(x, start, t)
    ensures forall q :: q in t.nodes ==> !ChildOf(q, x.B())
  {
    hide WellFormed, ChildOf;
    forall q | ChildOf(q, x.B()) ensures q !in t.nodes {
      InB(x, q);
    }
  }

  lemma InB(x: Alias, q: string)
    requires x.Valid() && ChildOf(q, x.B())
    ensures Below(q, x.cfg.rootdir) && q !in {x.OrgDir(), x.A(), x.B(), x.ServiceTop(), x.Srv(), x.SrvA()}
  {
    Names(x);
    BelowTransitive(x.B(), x.OrgDir(), x.cfg.rootdir);
    BelowTransitive(q, x.B(), x.cfg.rootdir);
    ChildParent(q, x.B());
    ChildParent(x.OrgDir(), x.cfg.rootdir);
    ChildParent(x.A(), x.OrgDir());
    ChildParent(x.B(), x.OrgDir());
    ChildParent(x.ServiceTop(), x.cfg.rootdir);
    ChildParent(x.Srv(), x.ServiceTop());
    ChildParent(x.SrvA(), x.Srv());
    OneLevel(x);
    if q == x.SrvA() { ChildParent(x.B(), x.OrgDir()); }
  }

  lemma AliasScript(t: Tree, path: string, d: string, s: DirScript)
    requires !t.err && Resolve(t.nodes, path) == Some(d) && IsDir(t.nodes, d)
    ensures !RunScript(t, path, s).err && RunScript(t, path, s).nodes == t.nodes
  {
    hide Resolve, AfterScript;
  }

  /** The scripts of the org unit directories make nothing. */
  lemma OuDirsFound(x: Alias, start: Nodes, t: Tree)
    requires Found(x, start, t)
    ensures var top := RunScript(t, x.OrgDir(), ToplevelSh);
            Found(x, start, RunJobs(top, OrgUnitJobs(x.OrgDir(), [x.a, x.b])))
  {
    hide RunScript, WellFormed, Resolve, Alias.Served;
    Names(x);
    StillAlias(x, start, t);
    DirMade(t, x.cfg.rootdir, x.cfg.orgUnitDir, ToplevelSh);
    assert t.nodes[x.OrgDir() := Dir] == t.nodes;
    var top := RunScript(t, x.OrgDir(), ToplevelSh);
    var shA, shB := OrgUnitSh(x.a.orgUnitGroup.gid), OrgUnitSh(x.b.orgUnitGroup.gid);
    AliasScript(top, x.A(), x.B(), shA);
    AliasScript(RunScript(top, x.A(), shA), x.B(), x.B(), shB);
    TwoOuJobs(top, x.OrgDir(), x.a, x.b);
  }

  lemma TwoOuJobs(t: Tree, root: string, a: OrgUnit, b: OrgUnit)
    ensures RunJobs(t, OrgUnitJobs(root, [a, b])) ==
            RunScript(RunScript(t, root + "/" + a.name, OrgUnitSh(a.orgUnitGroup.gid)), root + "/" + b.name, OrgUnitSh(b.orgUnitGroup.gid))
  {
    hide RunScript;
    assert [a, b][..1] == [a] && [a][..0] == [];
    assert OrgUnitJobs(root, []) == [];
    assert OrgUnitJobs(root, [a]) == [OrgUnitJob(root, a)];
    var jobA, jobB := OrgUnitJob(root, a), OrgUnitJob(root, b);
    assert OrgUnitJobs(root, [a, b]) == [jobA] + [jobB] && [] + [jobA] == [jobA];
    NoLinkJobs(t);
    RunOneMore(t, [], jobA);
    RunOneMore(t, [jobA], jobB);
  }

  /** The stage of `a` makes its link in the directory of `b`. */
  lemma LinkMadeInB(x: Alias, start: Nodes, t: Tree)
    requires Found(x, start, t)
    ensures var r := OrgUnitLinks(t, x.OrgDir(), x.cfg.serviceDir, x.a, [x.s], x.filter);
            !r.err && WellFormed(r.nodes) && r.nodes == t.nodes[x.B() + "/" + x.s.name := Link(LinkDest(x.cfg.serviceDir, x.a, x.s))]
  {
    hide MakeLink, WellFormed, Resolve, LinkDest, RmUnexpected, Alias.Served, Locate;
    Names(x);
    StillAlias(x, start, t);
    var dest := LinkDest(x.cfg.serviceDir, x.a, x.s);
    LinkDestParts(x.cfg.serviceDir, x.a, x.s);
    MakeChild(x.B(), x.s.name);
    MakeLinkLed(t, x.A(), x.B(), x.s.name, dest);
    OneLinkJob(t, x);
    var r := MakeLink(t, dest, x.A() + "/" + x.s.name);
    ResolveGrows(t.nodes, r.nodes, x.A());
    OneServiceAccepted(x);
    forall p ensures !MayGo(r.nodes, x.B(), {x.s.name}, true, p) {
      if p in r.nodes && ChildOf(p, x.B()) {
        assert p == x.B() + "/" + x.s.name && p[|x.B()| + 1..] == x.s.name;
      }
    }
    CleanAlready(r, x.A(), {x.s.name}, true);
  }

  lemma OneServiceAccepted(x: Alias)
    requires x.Valid()
    ensures AcceptedServices([x.s], x.a, x.filter) == {x.s.name} && AcceptedServices([x.s], x.b, x.filter) == {}
  {
    assert [x.s][0] == x.s;
  }

  lemma OneLinkJob(t: Tree, x: Alias)
    requires x.Valid()
    ensures RunLinkJobs(t, OuLinkJobs(x.OrgDir(), x.cfg.serviceDir, x.a, [x.s], x.filter)) ==
            MakeLink(t, LinkDest(x.cfg.serviceDir, x.a, x.s), x.A() + "/" + x.s.name)
    ensures OuLinkJobs(x.OrgDir(), x.cfg.serviceDir, x.b, [x.s], x.filter) == []
  {
    hide MakeLink, LinkDest;
    assert [x.s][..0] == [];
    var jobs := OuLinkJobs(x.OrgDir(), x.cfg.serviceDir, x.a, [x.s], x.filter);
    assert OuLinkJobs(x.OrgDir(), x.cfg.serviceDir, x.a, [], x.filter) == [];
    assert OuLinkJobs(x.OrgDir(), x.cfg.serviceDir, x.b, [], x.filter) == [];
    assert jobs == [ServiceLinkJob(x.OrgDir(), x.cfg.serviceDir, x.a, x.s)];
    assert jobs[..0] == [];
  }

  /** A clean-up of a directory whose only child is a link cannot fail. */
  lemma OneLinkRemoved(t: Tree, d: string, n: string, expected: set<string>)
    requires WellFormed(t.nodes) && !t.err && IsDir(t.nodes, d) && CleanName(n)
    requires d + "/" + n in t.nodes && t.nodes[d + "/" + n].Link?
    requires forall q :: q in t.nodes && ChildOf(q, d) ==> q == d + "/" + n
    ensures !RmUnexpected(t, d, expected, true).err
  {
    hide WellFormed, Resolve, Locate;
    ResolveDir(t.nodes, d);
    var p := d + "/" + n;
    MakeChild(d, n);
    ChildNameIn(t.nodes, d, n);
    assert p[|d| + 1..] == n;
    assert ChildNames(t.nodes, d) == {n};
    var names := SortedSet(ChildNames(t.nodes, d));
    OneName(names, n);
    LocateInDir(t.nodes, p);
    forall q | q in t.nodes ensures !Below(q, p) {
      if Below(q, p) { AncestorsAreDirs(t.nodes, q, p); }
    }
    var cs := ReadDir(t.nodes, d).value;
    assert cs == [Child(n, t.nodes[p])];
    assert cs[..0] == [];
    assert RemoveChildren(t, d, cs[..0], expected, true) == t;
  }

  lemma OneName(names: seq<string>, n: string)
    requires Ascending(names) && Elements(names) == {n}
    ensures names == [n]
  {
    assert Elements([n]) == {n};
    AscendingUnique(names, [n]);
  }

  lemma LinkRemoved(x: Alias, start: Nodes, t: Tree)
    requires Found(x, start, t)
    ensures !OrgUnitServiceLinks(t, x.OrgDir(), x.cfg.serviceDir, [x.a, x.b], [x.s], x.filter).err
  {
    hide WellFormed, RmUnexpected, Alias.Served, RunLinkJobs, LinkDest, Resolve;
    Names(x);
    StillAlias(x, start, t);
    LinkMadeInB(x, start, t);
    MakeChild(x.B(), x.s.name);
    var mid := OrgUnitLinks(t, x.OrgDir(), x.cfg.serviceDir, x.a, [x.s], x.filter);
    OneLinkJob(mid, x);
    OneServiceAccepted(x);
    NoLinkJobs(mid);
    OneLinkRemoved(mid, x.B(), x.s.name, {});
    TwoLinkStages(t, x);
  }

  lemma TwoLinkStages(t: Tree, x: Alias)
    ensures OrgUnitServiceLinks(t, x.OrgDir(), x.cfg.serviceDir, [x.a, x.b], [x.s], x.filter) ==
            OrgUnitLinks(OrgUnitLinks(t, x.OrgDir(), x.cfg.serviceDir, x.a, [x.s], x.filter),
                         x.OrgDir(), x.cfg.serviceDir, x.b, [x.s], x.filter)
  {
    hide OrgUnitLinks;
    var root, dir, services := x.OrgDir(), x.cfg.serviceDir, [x.s];
    assert [x.a, x.b][..1] == [x.a] && [x.a][..0] == [];
    assert OrgUnitServiceLinks(t, root, dir, [], services, x.filter) == t;
    assert OrgUnitServiceLinks(t, root, dir, [x.a], services, x.filter) == OrgUnitLinks(t, root, dir, x.a, services, x.filter);
  }

  lemma NoSubdirs(t: Tree, x: Alias)
    requires x.Valid()
    ensures RunJobs(t, SubdirJobs(x.OrgDir(), [x.a, x.b])) == t && RunLinkJobs(t, ExplicitJobs(x.cfg.rootdir, x.cfg.symlinks)) == t
  {
    hide RunScript, MakeLink;
    assert [x.a, x.b][..1] == [x.a] && [x.a][..0] == [];
    assert SubdirJobs(x.OrgDir(), []) == [] && SubdirJobs(x.OrgDir(), [x.a]) == [];
    assert SubdirJobs(x.OrgDir(), [x.a, x.b]) == [];
  }

  lemma RunWithoutError(x: Alias, t: Tree)
    requires x.Valid() && x.Start(t.nodes) && !t.err
    ensures Found(x, t.nodes, AfterOuDirs(t, x.cfg, [x.s], [x.a, x.b], x.filter))
    ensures !Applied(t, x.cfg, [x.s], [x.a, x.b], x.filter).err
  {
    hide ServicePart, Alias.Start, Alias.Served, RunScript, RunJobs, WellFormed, RunLinkJobs, OrgUnitServiceLinks;
    ServedWithoutError(x, t);
    var srv := ServicePart(t, x.cfg, [x.s], [x.a, x.b], x.filter);
    OuDirsFound(x, t.nodes, srv);
    LinkRemoved(x, t.nodes, AfterOuDirs(t, x.cfg, [x.s], [x.a, x.b], x.filter));
    AppliedStages(t, x.cfg, [x.s], [x.a, x.b], x.filter);
    NoSubdirs(AfterLinks(t, x.cfg, [x.s], [x.a, x.b], x.filter), x);
  }

  lemma BothInB(x: Alias, start: Nodes, t: Tree)
    requires Found(x, start, t)
    ensures Independent(t.nodes, x.OrgDir(), [x.a, x.b], [x.B(), x.B()])
  {
    hide WellFormed, Resolve, Alias.Served;
    StillAlias(x, start, t);
    assert Stripped(t.nodes, [x.B(), x.B()]) == t.nodes;
  }

  /** A whole run that reports success although the check of the same configuration then
      fails: the stage of `b` removes the link that the stage of `a` has made. */
  lemma AliasFailsCheck(x: Alias, t: Tree)
    requires x.Valid() && x.Start(t.nodes) && !t.err
    ensures var r := Applied(t, x.cfg, [x.s], [x.a, x.b], x.filter);
            !r.err && !LinksPass(r.nodes, FsCheck.Entries(x.cfg, [x.s], [x.a, x.b], x.filter))
  {
    hide WellFormed, Applied, AfterOuDirs, LinksPass, FsCheck.Entries, Independent, LinkDest, Reaches, LinkRun, Stripped;
    RunWithoutError(x, t);
    BothInB(x, t.nodes, AfterOuDirs(t, x.cfg, [x.s], [x.a, x.b], x.filter));
    var services, ous, ds := [x.s], [x.a, x.b], [x.B(), x.B()];
    IndependentRun(t, x.cfg, services, ous, x.filter, ds);
    AppliedLinksPassIff(t, x.cfg, services, ous, x.filter, ds, Stripped(AfterOuDirs(t, x.cfg, services, ous, x.filter).nodes, ds));
    assert Owner(ds, 0) == 1 by { assert ds[0] == ds[1]; }
    assert x.filter(services[0], ous[0]) && !x.filter(services[0], ous[1]);
    assert !Stays(Applied(t, x.cfg, services, ous, x.filter).nodes, x.cfg, services, ous, x.filter, ds, 0, 0);
  }
}
