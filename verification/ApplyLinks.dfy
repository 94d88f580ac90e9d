/** An apply run, also where org unit directories are links or lie below links: which service
    links are in place at the end, and so when the symlink checks pass. */
module ApplyLinks {
  import opened Strings
  import opened Paths
  import opened Sharing
  import opened FileSystem
  import opened PosixAcl
  import opened DirScripts
  import opened Organization
  import opened FsApply
  import opened ApplySteps
  import opened FsCheck
  import opened ApplySymlinks

  // Where org unit directories lead

  /** The tree after the org unit directories were made. */
  ghost function AfterOuDirs(t: Tree, cfg: Config, services: seq<Service>, ous: seq<OrgUnit>, filter: Filter): Tree {
    var top := RunScript(ServicePart(t, cfg, services, ous, filter), cfg.OrgUnitRoot(), ToplevelSh);
    RunJobs(top, OrgUnitJobs(cfg.OrgUnitRoot(), ous))
  }

  /** A part of the tree that is enough for the walks to all org unit directories, and what
      they lead to; it holds no link directly in a directory that two org units share. */
  ghost predicate Leads(base: Nodes, root: string, ous: seq<OrgUnit>, ds: seq<string>) {
    && |ds| == |ous|
    && (forall i :: 0 <= i < |ous| ==> Resolve(base, root + "/" + ous[i].name) == Some(ds[i]) && IsDir(base, ds[i]))
    && (forall i, k, p :: 0 <= i < k < |ds| && p in base && ChildOf(p, ds[i]) && ds[i] == ds[k] ==> !base[p].Link?)
  }

  /** After the first `k` org units, at most links directly in their directories are gone. */
  ghost predicate KeepsBut(base: Nodes, nodes: Nodes, ds: seq<string>, k: nat)
    requires k <= |ds|
  {
    forall p :: p in base ==>
      if p in nodes then nodes[p] == base[p] else base[p].Link? && exists m :: 0 <= m < k && ChildOf(p, ds[m])
  }

  /** Only links directly below `d` come and go. */
  ghost predicate ChangesLinksIn(n0: Nodes, n1: Nodes, d: string) {
    && (forall p :: p in n0 && !(p in n1 && n1[p] == n0[p]) ==> p !in n1 && ChildOf(p, d) && n0[p].Link?)
    && (forall p :: p in n1 && p !in n0 ==> ChildOf(p, d) && n1[p].Link?)
  }

  lemma NothingGone(base: Nodes, nodes: Nodes, ds: seq<string>)
    requires Grows(base, nodes)
    ensures KeepsBut(base, nodes, ds, 0)
  {
  }

  lemma KeepsMore(base: Nodes, n0: Nodes, n1: Nodes, root: string, ous: seq<OrgUnit>, ds: seq<string>, k: nat)
    requires Leads(base, root, ous, ds) && k < |ds| && KeepsBut(base, n0, ds, k) && ChangesLinksIn(n0, n1, ds[k])
    ensures KeepsBut(base, n1, ds, k + 1)
  {
    hide Resolve;
    forall p | p in base
      ensures if p in n1 then n1[p] == base[p] else base[p].Link? && exists m :: 0 <= m < k + 1 && ChildOf(p, ds[m])
    {
      if p in n1 && p !in n0 {
        var m :| 0 <= m < k && ChildOf(p, ds[m]);
        ChildSplit(p, ds[m]);
        ChildSplit(p, ds[k]);
        assert false;
      }
    }
  }

  /** Walks lead to the same directories, or nowhere. */
  lemma Led(base: Nodes, nodes: Nodes, root: string, ous: seq<OrgUnit>, ds: seq<string>, k: nat, i: nat)
    requires Leads(base, root, ous, ds) && k <= |ds| && i < |ds| && KeepsBut(base, nodes, ds, k)
    ensures IsDir(nodes, ds[i])
    ensures var r := Resolve(nodes, root + "/" + ous[i].name); r.None? || r == Some(ds[i])
  {
    hide Resolve;
    if Resolve(nodes, root + "/" + ous[i].name).Some? { ResolveMeets(base, nodes, root + "/" + ous[i].name); }
  }

  // One org unit

  /** Every accepted service of the org unit has its link directly below `d`. */
  ghost predicate OuLinked(nodes: Nodes, d: string, serviceDir: string, ou: OrgUnit, services: seq<Service>, filter: Filter) {
    forall j :: 0 <= j < |services| && filter(services[j], ou) ==>
      d + "/" + services[j].name in nodes && nodes[d + "/" + services[j].name] == Link(LinkDest(serviceDir, ou, services[j]))
  }

  /** Every link directly below `d` is for an accepted service of the org unit. */
  ghost predicate NoStaleLinks(nodes: Nodes, d: string, ou: OrgUnit, services: seq<Service>, filter: Filter) {
    forall p :: p in nodes && ChildOf(p, d) && nodes[p].Link? ==> p[|d| + 1..] in AcceptedServices(services, ou, filter)
  }

  ghost predicate CleanServices(services: seq<Service>) {
    forall i :: 0 <= i < |services| ==> CleanName(services[i].name)
  }

  lemma LinkStep(n0: Nodes, t: Tree, root: string, serviceDir: string, ou: OrgUnit, d: string, s: Service)
    requires Resolve(n0, root + "/" + ou.name) == Some(d) && IsDir(n0, d) && WellFormed(t.nodes) && CleanName(s.name)
    requires Grows(n0, t.nodes) && ChangesLinksIn(n0, t.nodes, d)
    ensures var job := ServiceLinkJob(root, serviceDir, ou, s);
            var r := MakeLink(t, job.dest, job.path);
            && WellFormed(r.nodes) && r.acls == t.acls && Grows(n0, r.nodes) && Grows(t.nodes, r.nodes)
            && ChangesLinksIn(n0, r.nodes, d)
            && (!r.err ==> !t.err && d + "/" + s.name in r.nodes && r.nodes[d + "/" + s.name] == Link(job.dest))
  {
    hide MakeLink, WellFormed, Resolve, LinkDest, Grows, ChangesLinksIn;
    var job := ServiceLinkJob(root, serviceDir, ou, s);
    MakeChild(d, s.name);
    ResolveGrows(n0, t.nodes, root + "/" + ou.name);
    DirGrows(n0, t.nodes, d);
    SameGrows(t.nodes);
    if t.err {
      ErrNoLink(t, job);
    } else {
      MakeLinkLed(t, root + "/" + ou.name, d, s.name, job.dest);
      if d + "/" + s.name !in t.nodes {
        AddedLink(n0, t.nodes, d, d + "/" + s.name, job.dest);
      }
    }
  }

  lemma DirGrows(n0: Nodes, n1: Nodes, d: string)
    requires Grows(n0, n1) && IsDir(n0, d)
    ensures IsDir(n1, d)
  {
  }

  lemma SameGrows(nodes: Nodes)
    ensures Grows(nodes, nodes)
  {
  }

  lemma AddedLink(n0: Nodes, n1: Nodes, d: string, p: string, dest: string)
    requires Grows(n0, n1) && ChangesLinksIn(n0, n1, d) && ChildOf(p, d) && p !in n1
    ensures var n2 := n1[p := Link(dest)]; Grows(n0, n2) && Grows(n1, n2) && ChangesLinksIn(n0, n2, d)
  {
  }

  lemma {:induction false} LinkJobsStage(
    t: Tree, root: string, serviceDir: string, ou: OrgUnit, d: string, services: seq<Service>, filter: Filter)
    requires Resolve(t.nodes, root + "/" + ou.name) == Some(d) && IsDir(t.nodes, d) && WellFormed(t.nodes) && CleanServices(services)
    ensures var r := RunLinkJobs(t, OuLinkJobs(root, serviceDir, ou, services, filter));
            && WellFormed(r.nodes) && r.acls == t.acls && Grows(t.nodes, r.nodes) && ChangesLinksIn(t.nodes, r.nodes, d)
            && (!r.err ==> !t.err && OuLinked(r.nodes, d, serviceDir, ou, services, filter))
  {
    hide MakeLink, WellFormed, ServiceLinkJob, OuLinked, ChangesLinksIn, Grows, Resolve;
    if services == [] {
      NoServices(t.nodes, d, serviceDir, ou, filter);
    } else {
      var n := |services| - 1;
      LinkJobsStage(t, root, serviceDir, ou, d, services[..n], filter);
      var mid := RunLinkJobs(t, OuLinkJobs(root, serviceDir, ou, services[..n], filter));
      if filter(services[n], ou) {
        var job := ServiceLinkJob(root, serviceDir, ou, services[n]);
        LinkOneMore(t, OuLinkJobs(root, serviceDir, ou, services[..n], filter), job);
        LinkStep(t.nodes, mid, root, serviceDir, ou, d, services[n]);
        var r := MakeLink(mid, job.dest, job.path);
        if !r.err {
          JobDest(root, serviceDir, ou, services[n]);
          LinkedOneMore(mid.nodes, r.nodes, d, serviceDir, ou, services, filter);
        }
      } else {
        NotLinked(mid.nodes, d, serviceDir, ou, services, filter);
        assert OuLinkJobs(root, serviceDir, ou, services, filter) == OuLinkJobs(root, serviceDir, ou, services[..n], filter);
      }
    }
  }

  /** Where the walk leads nowhere, the stage fails and changes nothing. */
  lemma {:induction false} LostJobs(t: Tree, root: string, serviceDir: string, ou: OrgUnit, services: seq<Service>, filter: Filter)
    requires Resolve(t.nodes, root + "/" + ou.name).None? && CleanServices(services)
    ensures RunLinkJobs(t, OuLinkJobs(root, serviceDir, ou, services, filter)).nodes == t.nodes
    ensures RunLinkJobs(t, OuLinkJobs(root, serviceDir, ou, services, filter)).acls == t.acls
  {
    hide Resolve, LinkDest;
    if services != [] {
      var n := |services| - 1;
      LostJobs(t, root, serviceDir, ou, services[..n], filter);
      if filter(services[n], ou) {
        var job := ServiceLinkJob(root, serviceDir, ou, services[n]);
        LinkOneMore(t, OuLinkJobs(root, serviceDir, ou, services[..n], filter), job);
        MakeChild(root + "/" + ou.name, services[n].name);
        assert Parent(job.path) == root + "/" + ou.name;
      } else {
        assert OuLinkJobs(root, serviceDir, ou, services, filter) == OuLinkJobs(root, serviceDir, ou, services[..n], filter);
      }
    }
  }

  lemma LostStage(t: Tree, root: string, serviceDir: string, ou: OrgUnit, services: seq<Service>, filter: Filter)
    requires Resolve(t.nodes, root + "/" + ou.name).None? && CleanServices(services)
    ensures var r := OrgUnitLinks(t, root, serviceDir, ou, services, filter); r.err && r.nodes == t.nodes && r.acls == t.acls
  {
    hide Resolve, RunLinkJobs, AcceptedServices;
    LostJobs(t, root, serviceDir, ou, services, filter);
  }

  lemma JobDest(root: string, serviceDir: string, ou: OrgUnit, s: Service)
    ensures ServiceLinkJob(root, serviceDir, ou, s).dest == LinkDest(serviceDir, ou, s)
  {
  }

  lemma NoServices(nodes: Nodes, d: string, serviceDir: string, ou: OrgUnit, filter: Filter)
    ensures OuLinked(nodes, d, serviceDir, ou, [], filter) && Grows(nodes, nodes) && ChangesLinksIn(nodes, nodes, d)
  {
  }

  lemma NotLinked(nodes: Nodes, d: string, serviceDir: string, ou: OrgUnit, services: seq<Service>, filter: Filter)
    requires services != [] && !filter(services[|services| - 1], ou)
    ensures OuLinked(nodes, d, serviceDir, ou, services[..|services| - 1], filter) ==>
            OuLinked(nodes, d, serviceDir, ou, services, filter)
  {
    hide LinkDest;
    var n := |services| - 1;
    assert forall j :: 0 <= j < n ==> services[..n][j] == services[j];
  }

  lemma LinkedOneMore(n0: Nodes, n1: Nodes, d: string, serviceDir: string, ou: OrgUnit, services: seq<Service>, filter: Filter)
    requires services != [] && Grows(n0, n1)
    requires OuLinked(n0, d, serviceDir, ou, services[..|services| - 1], filter)
    requires var s := services[|services| - 1];
             d + "/" + s.name in n1 && n1[d + "/" + s.name] == Link(LinkDest(serviceDir, ou, s))
    ensures OuLinked(n1, d, serviceDir, ou, services, filter)
  {
    hide LinkDest;
    var n := |services| - 1;
    forall j | 0 <= j < |services| && filter(services[j], ou)
      ensures d + "/" + services[j].name in n1 && n1[d + "/" + services[j].name] == Link(LinkDest(serviceDir, ou, services[j]))
    {
      if j < n { assert services[..n][j] == services[j]; }
    }
  }

  /** After the links and the clean-up of one org unit, exactly its links are left. */
  lemma LinkStage(t: Tree, root: string, serviceDir: string, ou: OrgUnit, d: string, services: seq<Service>, filter: Filter)
    requires Resolve(t.nodes, root + "/" + ou.name) == Some(d) && IsDir(t.nodes, d) && WellFormed(t.nodes) && CleanServices(services)
    ensures var r := OrgUnitLinks(t, root, serviceDir, ou, services, filter);
            && WellFormed(r.nodes) && r.acls == t.acls && ChangesLinksIn(t.nodes, r.nodes, d)
            && (!r.err ==> !t.err && OuLinked(r.nodes, d, serviceDir, ou, services, filter)
                           && NoStaleLinks(r.nodes, d, ou, services, filter))
  {
    hide RunLinkJobs, RmUnexpected, Resolve, WellFormed, LinkDest;
    LinkJobsStage(t, root, serviceDir, ou, d, services, filter);
    var mid := RunLinkJobs(t, OuLinkJobs(root, serviceDir, ou, services, filter));
    var expected := AcceptedServices(services, ou, filter);
    ResolveGrows(t.nodes, mid.nodes, root + "/" + ou.name);
    RmUnexpectedSpec(mid, root + "/" + ou.name, expected, true);
    var r := RmUnexpected(mid, root + "/" + ou.name, expected, true);
    if !r.err {
      ExpectedStay(mid.nodes, r.nodes, d, serviceDir, ou, services, filter);
      RmUnexpectedComplete(mid, root + "/" + ou.name, expected, true);
      StaleGone(mid.nodes, r.nodes, d, ou, services, filter);
    }
  }

  lemma StaleGone(n0: Nodes, n1: Nodes, d: string, ou: OrgUnit, services: seq<Service>, filter: Filter)
    requires Grows(n1, n0)
    requires forall p :: MayGo(n0, d, AcceptedServices(services, ou, filter), true, p) ==> Gone(n1, p, true)
    ensures NoStaleLinks(n1, d, ou, services, filter)
  {
    var expected := AcceptedServices(services, ou, filter);
    forall p | p in n1 && ChildOf(p, d) && n1[p].Link? ensures p[|d| + 1..] in expected {
      if p[|d| + 1..] !in expected { assert MayGo(n0, d, expected, true, p); }
    }
  }

  lemma ExpectedStay(n0: Nodes, n1: Nodes, d: string, serviceDir: string, ou: OrgUnit, services: seq<Service>, filter: Filter)
    requires OuLinked(n0, d, serviceDir, ou, services, filter)
    requires OnlyRemoves(n0, n1, d, AcceptedServices(services, ou, filter), true)
    ensures OuLinked(n1, d, serviceDir, ou, services, filter)
  {
    hide LinkDest;
    forall j | 0 <= j < |services| && filter(services[j], ou)
      ensures d + "/" + services[j].name in n1 && n1[d + "/" + services[j].name] == Link(LinkDest(serviceDir, ou, services[j]))
    {
      assert (d + "/" + services[j].name)[|d| + 1..] == services[j].name;
      assert services[j].name in AcceptedServices(services, ou, filter);
    }
  }

  /** Links in one directory are not touched while another one is processed. */
  lemma OtherDirStays(
    n0: Nodes, n1: Nodes, d: string, other: string, serviceDir: string, ou: OrgUnit, services: seq<Service>, filter: Filter)
    requires d != other && ChangesLinksIn(n0, n1, other) && CleanServices(services)
    requires OuLinked(n0, d, serviceDir, ou, services, filter) && NoStaleLinks(n0, d, ou, services, filter)
    ensures OuLinked(n1, d, serviceDir, ou, services, filter) && NoStaleLinks(n1, d, ou, services, filter)
  {
    hide LinkDest, AcceptedServices;
    forall p | ChildOf(p, d) ensures !ChildOf(p, other) {
      ChildSplit(p, d);
      if ChildOf(p, other) { ChildSplit(p, other); }
    }
    forall j | 0 <= j < |services| ensures ChildOf(d + "/" + services[j].name, d) {
      MakeChild(d, services[j].name);
    }
  }

  // All org units

  /** No later org unit among the first `k` leads to the same directory. */
  ghost predicate LastOf(ds: seq<string>, i: nat, k: nat)
    requires i < k <= |ds|
  {
    forall m :: i < m < k ==> ds[m] != ds[i]
  }

  /** Whatever is new is a link directly in one of the directories. */
  ghost predicate NewIn(n0: Nodes, n1: Nodes, ds: seq<string>) {
    forall p :: p in n1 && !(p in n0 && n0[p] == n1[p]) ==> n1[p].Link? && exists i :: 0 <= i < |ds| && ChildOf(p, ds[i])
  }

  lemma NothingNew(nodes: Nodes, ds: seq<string>)
    ensures NewIn(nodes, nodes, ds)
  {
  }

  lemma NewInMore(n0: Nodes, n1: Nodes, n2: Nodes, ds: seq<string>, i: nat)
    requires NewIn(n0, n1, ds) && NewIn(n1, n0, ds) && i < |ds| && ChangesLinksIn(n1, n2, ds[i])
    ensures NewIn(n0, n2, ds) && NewIn(n2, n0, ds)
  {
  }

  /** The stage of one org unit, wherever the walk leads. */
  lemma AnyStage(
    base: Nodes, t: Tree, root: string, serviceDir: string, ous: seq<OrgUnit>, ds: seq<string>, k: nat,
    services: seq<Service>, filter: Filter)
    requires Leads(base, root, ous, ds) && k < |ds| && KeepsBut(base, t.nodes, ds, k) && WellFormed(t.nodes) && CleanServices(services)
    ensures var r := OrgUnitLinks(t, root, serviceDir, ous[k], services, filter);
            && WellFormed(r.nodes) && r.acls == t.acls && ChangesLinksIn(t.nodes, r.nodes, ds[k]) && KeepsBut(base, r.nodes, ds, k + 1)
            && (!r.err ==> !t.err && OuLinked(r.nodes, ds[k], serviceDir, ous[k], services, filter)
                           && NoStaleLinks(r.nodes, ds[k], ous[k], services, filter))
  {
    hide OrgUnitLinks, Resolve, WellFormed, OuLinked, NoStaleLinks, KeepsBut;
    LeadsLength(base, root, ous, ds);
    Led(base, t.nodes, root, ous, ds, k, k);
    if Resolve(t.nodes, root + "/" + ous[k].name).None? {
      LostStage(t, root, serviceDir, ous[k], services, filter);
    } else {
      LinkStage(t, root, serviceDir, ous[k], ds[k], services, filter);
    }
    KeepsMore(base, t.nodes, OrgUnitLinks(t, root, serviceDir, ous[k], services, filter).nodes, root, ous, ds, k);
  }

  /** Whose links a directory holds after the first `k` org units: those of the last one
      that leads there. */
  lemma {:induction false} LinksStage(
    base: Nodes, t: Tree, root: string, serviceDir: string, ous: seq<OrgUnit>, ds: seq<string>, k: nat,
    services: seq<Service>, filter: Filter)
    requires |ds| == |ous| && k <= |ous| && WellFormed(t.nodes) && Leads(base, root, ous, ds) && Grows(base, t.nodes) && CleanServices(services)
    ensures var r := OrgUnitServiceLinks(t, root, serviceDir, ous[..k], services, filter);
            && WellFormed(r.nodes) && KeepsBut(base, r.nodes, ds, k) && r.acls == t.acls && NewIn(t.nodes, r.nodes, ds) && NewIn(r.nodes, t.nodes, ds)
            && (!r.err ==> !t.err && forall i :: 0 <= i < k && LastOf(ds, i, k) ==>
                  OuLinked(r.nodes, ds[i], serviceDir, ous[i], services, filter) && NoStaleLinks(r.nodes, ds[i], ous[i], services, filter))
  {
    hide OrgUnitLinks, WellFormed, OuLinked, NoStaleLinks, Leads, Grows, NewIn, KeepsBut;
    if k == 0 {
      NothingNew(t.nodes, ds);
      NothingGone(base, t.nodes, ds);
    } else {
      var n := k - 1;
      LinksStage(base, t, root, serviceDir, ous, ds, n, services, filter);
      assert ous[..k][..n] == ous[..n] && ous[..k][n] == ous[n];
      var mid := OrgUnitServiceLinks(t, root, serviceDir, ous[..n], services, filter);
      AnyStage(base, mid, root, serviceDir, ous, ds, n, services, filter);
      var r := OrgUnitLinks(mid, root, serviceDir, ous[n], services, filter);
      NewInMore(t.nodes, mid.nodes, r.nodes, ds, n);
      if !r.err {
        forall i | 0 <= i < k && LastOf(ds, i, k)
          ensures OuLinked(r.nodes, ds[i], serviceDir, ous[i], services, filter) && NoStaleLinks(r.nodes, ds[i], ous[i], services, filter)
        {
          if i < n {
            assert LastOf(ds, i, n) && ds[n] != ds[i];
            OtherDirStays(mid.nodes, r.nodes, ds[i], ds[n], serviceDir, ous[i], services, filter);
          }
        }
      }
    }
  }

  lemma LeadsLength(base: Nodes, root: string, ous: seq<OrgUnit>, ds: seq<string>)
    requires Leads(base, root, ous, ds)
    ensures |ds| == |ous|
  {
  }

  /** The last org unit that leads to the same directory as org unit `i`. */
  ghost function Owner(ds: seq<string>, i: nat): (j: nat)
    requires i < |ds|
    ensures i <= j < |ds| && ds[j] == ds[i] && LastOf(ds, j, |ds|)
    decreases |ds| - i
  {
    if m :| i < m < |ds| && ds[m] == ds[i] then Owner(ds, m) else i
  }

  // The link check in terms of org units and services

  ghost predicate OuPasses(nodes: Nodes, root: string, serviceDir: string, ou: OrgUnit, services: seq<Service>, filter: Filter) {
    forall j :: 0 <= j < |services| && filter(services[j], ou) ==>
      IsDestSymlink(nodes, LinkDest(serviceDir, ou, services[j]), root + "/" + ou.name + "/" + services[j].name)
  }

  lemma OneLinkEntry(nodes: Nodes, root: string, serviceDir: string, ou: OrgUnit, s: Service)
    ensures LinksPass(nodes, [ServiceLinkEntry(root, serviceDir, ou, s)]) <==>
            IsDestSymlink(nodes, LinkDest(serviceDir, ou, s), root + "/" + ou.name + "/" + s.name)
  {
    hide Join, Locate;
    var e := ServiceLinkEntry(root, serviceDir, ou, s);
    assert [e][0] == e;
  }

  lemma {:induction false} OuLinksPassIff(
    nodes: Nodes, root: string, serviceDir: string, ou: OrgUnit, services: seq<Service>, filter: Filter)
    ensures LinksPass(nodes, OuLinks(root, serviceDir, ou, services, filter)) <==>
            OuPasses(nodes, root, serviceDir, ou, services, filter)
  {
    hide LinksPass, LinkDest, ServiceLinkEntry, IsDestSymlink;
    if services == [] {
      NoEntriesPass(nodes);
    } else {
      var n := |services| - 1;
      assert forall j :: 0 <= j < n ==> services[..n][j] == services[j];
      OuLinksPassIff(nodes, root, serviceDir, ou, services[..n], filter);
      if filter(services[n], ou) {
        OneLinkEntry(nodes, root, serviceDir, ou, services[n]);
        LinksPassConcat(nodes, OuLinks(root, serviceDir, ou, services[..n], filter), [ServiceLinkEntry(root, serviceDir, ou, services[n])]);
      } else {
        assert OuLinks(root, serviceDir, ou, services, filter) == OuLinks(root, serviceDir, ou, services[..n], filter);
      }
    }
  }

  lemma {:induction false} AllOuLinksPassIff(
    nodes: Nodes, root: string, serviceDir: string, ous: seq<OrgUnit>, services: seq<Service>, filter: Filter)
    ensures LinksPass(nodes, AllOuLinks(root, serviceDir, ous, services, filter)) <==>
            forall i :: 0 <= i < |ous| ==> OuPasses(nodes, root, serviceDir, ous[i], services, filter)
  {
    hide LinksPass, OuPasses;
    if ous == [] {
      NoEntriesPass(nodes);
    } else {
      var n := |ous| - 1;
      assert forall i :: 0 <= i < n ==> ous[..n][i] == ous[i];
      AllOuLinksPassIff(nodes, root, serviceDir, ous[..n], services, filter);
      OuLinksPassIff(nodes, root, serviceDir, ous[n], services, filter);
      LinksPassConcat(nodes, AllOuLinks(root, serviceDir, ous[..n], services, filter),
        OuLinks(root, serviceDir, ous[n], services, filter));
    }
  }

  // Links that come after the link stage

  lemma MakeLinkAdds(t: Tree, dest: string, path: string)
    ensures var r := MakeLink(t, dest, path);
            r.nodes == t.nodes ||
            (Locate(t.nodes, path).Some? && Locate(t.nodes, path).value !in t.nodes &&
             r.nodes == t.nodes[Locate(t.nodes, path).value := Link(dest)])
  {
    hide Locate;
  }

  ghost predicate MadeBy(nodes: Nodes, jobs: seq<LinkJob>, p: string) {
    exists i :: 0 <= i < |jobs| && Locate(nodes, jobs[i].path) == Some(p) && p in nodes && nodes[p] == Link(jobs[i].dest)
  }

  /** A node that was not there before the explicit links is one of them. */
  lemma {:induction false} LinkJobsAdd(t: Tree, jobs: seq<LinkJob>, p: string)
    requires WellFormed(t.nodes) && forall i :: 0 <= i < |jobs| ==> ChildOf(jobs[i].path, Parent(jobs[i].path))
    requires p in RunLinkJobs(t, jobs).nodes && p !in t.nodes
    ensures MadeBy(RunLinkJobs(t, jobs).nodes, jobs, p)
  {
    hide MakeLink, WellFormed, Locate;
    if jobs != [] {
      var n := |jobs| - 1;
      var mid, r := RunLinkJobs(t, jobs[..n]), RunLinkJobs(t, jobs);
      LinkJobsPass(t, jobs[..n]);
      MakeLinkPasses(mid, jobs[n].dest, jobs[n].path);
      MakeLinkAdds(mid, jobs[n].dest, jobs[n].path);
      if p in mid.nodes {
        LinkJobsAdd(t, jobs[..n], p);
        var i :| 0 <= i < n && Locate(mid.nodes, jobs[..n][i].path) == Some(p) && mid.nodes[p] == Link(jobs[..n][i].dest);
        LocateGrows(mid.nodes, r.nodes, jobs[i].path);
        assert jobs[..n][i] == jobs[i];
      } else {
        LocateGrows(mid.nodes, r.nodes, jobs[n].path);
      }
    }
  }

  /** An explicit link of the configuration with this target is placed at `p`. */
  ghost predicate Remade(nodes: Nodes, cfg: Config, p: string, dest: string) {
    exists l :: 0 <= l < |cfg.symlinks| && Locate(nodes, cfg.rootdir + "/" + cfg.symlinks[l].path) == Some(p)
                && cfg.symlinks[l].target == dest
  }

  ghost predicate DistinctServices(services: seq<Service>) {
    forall i, j :: 0 <= i < j < |services| ==> services[i].name != services[j].name
  }

  /** The last org unit that leads to the directory of org unit `i` also uses service `j`,
      with the same target. */
  ghost predicate Kept(cfg: Config, services: seq<Service>, ous: seq<OrgUnit>, filter: Filter, ds: seq<string>, i: nat, j: nat)
    requires |ds| == |ous| && i < |ous| && j < |services|
  {
    var o := ous[Owner(ds, i)];
    filter(services[j], o) && LinkDest(cfg.serviceDir, o, services[j]) == LinkDest(cfg.serviceDir, ous[i], services[j])
  }

  /** After the link stage, the link of an accepted service is in place if and only if it is
      kept. */
  lemma LinkAfterStage(
    nodes: Nodes, cfg: Config, services: seq<Service>, ous: seq<OrgUnit>, filter: Filter, ds: seq<string>, i: nat, j: nat)
    requires |ds| == |ous| && i < |ous| && j < |services| && filter(services[j], ous[i]) && CleanServices(services)
    requires var o := Owner(ds, i);
             OuLinked(nodes, ds[o], cfg.serviceDir, ous[o], services, filter) && NoStaleLinks(nodes, ds[o], ous[o], services, filter)
    ensures var p, dest := ds[i] + "/" + services[j].name, LinkDest(cfg.serviceDir, ous[i], services[j]);
            && (Kept(cfg, services, ous, filter, ds, i, j) ==> p in nodes && nodes[p] == Link(dest))
            && (p in nodes && nodes[p] == Link(dest) && DistinctServices(services) ==> Kept(cfg, services, ous, filter, ds, i, j))
  {
    hide LinkDest;
    var o := Owner(ds, i);
    var d, n := ds[i], services[j].name;
    MakeChild(d, n);
    assert (d + "/" + n)[|d| + 1..] == n;
    if d + "/" + n in nodes && nodes[d + "/" + n] == Link(LinkDest(cfg.serviceDir, ous[i], services[j])) && DistinctServices(services) {
      assert n in AcceptedServices(services, ous[o], filter);
      var k :| 0 <= k < |services| && filter(services[k], ous[o]) && services[k].name == n;
      assert k == j;
    }
  }

  // The whole run

  /** Nothing takes the place of a link that the link stage has removed. */
  ghost predicate NotReplaced(base: Nodes, linked: Nodes, r: Nodes) {
    forall p :: p in base && p in r ==> p in linked
  }

  /** A run without error, what its org unit directories lead to, and a part of the tree
      before the link stage that is enough for these walks. */
  ghost predicate LinkStart(
    t: Tree, cfg: Config, services: seq<Service>, ous: seq<OrgUnit>, filter: Filter, ds: seq<string>, base: Nodes)
  {
    && WellFormed(t.nodes) && cfg.Valid() && CleanOrg(services, ous)
    && Grows(base, AfterOuDirs(t, cfg, services, ous, filter).nodes) && Leads(base, cfg.OrgUnitRoot(), ous, ds)
    && !Applied(t, cfg, services, ous, filter).err
  }

  /** Besides, nothing takes the place of a link of this part that the link stage removes. */
  ghost predicate LinkRun(
    t: Tree, cfg: Config, services: seq<Service>, ous: seq<OrgUnit>, filter: Filter, ds: seq<string>, base: Nodes)
  {
    && LinkStart(t, cfg, services, ous, filter, ds, base)
    && NotReplaced(base, AfterLinks(t, cfg, services, ous, filter).nodes, Applied(t, cfg, services, ous, filter).nodes)
  }

  lemma {:induction false} OrgUnitJobsClean(root: string, ous: seq<OrgUnit>)
    requires forall i :: 0 <= i < |ous| ==> CleanName(ous[i].name)
    ensures CleanJobs(OrgUnitJobs(root, ous))
  {
    if ous != [] {
      OrgUnitJobsClean(root, ous[..|ous| - 1]);
      MakeChild(root, ous[|ous| - 1].name);
    }
  }

  lemma AfterOuDirsWellFormed(t: Tree, cfg: Config, services: seq<Service>, ous: seq<OrgUnit>, filter: Filter)
    requires WellFormed(t.nodes) && cfg.Valid() && CleanOrg(services, ous)
    ensures WellFormed(AfterOuDirs(t, cfg, services, ous, filter).nodes)
  {
    hide RunScript, RunJobs, ServicePart, WellFormed;
    ServicePartNoNewLinks(t, cfg, services, ous, filter);
    var srv := ServicePart(t, cfg, services, ous, filter);
    MakeChild(cfg.rootdir, cfg.orgUnitDir);
    ScriptAddsDirs(srv, cfg.OrgUnitRoot(), ToplevelSh);
    OrgUnitJobsClean(cfg.OrgUnitRoot(), ous);
    JobsAddDirs(RunScript(srv, cfg.OrgUnitRoot(), ToplevelSh), OrgUnitJobs(cfg.OrgUnitRoot(), ous));
  }

  ghost function AfterLinks(t: Tree, cfg: Config, services: seq<Service>, ous: seq<OrgUnit>, filter: Filter): Tree {
    OrgUnitServiceLinks(AfterOuDirs(t, cfg, services, ous, filter), cfg.OrgUnitRoot(), cfg.serviceDir, ous, services, filter)
  }

  ghost function AfterSubdirs(t: Tree, cfg: Config, services: seq<Service>, ous: seq<OrgUnit>, filter: Filter): Tree {
    RunJobs(AfterLinks(t, cfg, services, ous, filter), SubdirJobs(cfg.OrgUnitRoot(), ous))
  }

  lemma AppliedStages(t: Tree, cfg: Config, services: seq<Service>, ous: seq<OrgUnit>, filter: Filter)
    ensures Applied(t, cfg, services, ous, filter) ==
            RunLinkJobs(AfterSubdirs(t, cfg, services, ous, filter), ExplicitJobs(cfg.rootdir, cfg.symlinks))
  {
    hide RunScript, RunJobs, ServicePart, OrgUnitServiceLinks, RunLinkJobs;
  }

  /** What comes after the link stage only adds to the tree. */
  lemma LaterStages(t: Tree, cfg: Config, services: seq<Service>, ous: seq<OrgUnit>, filter: Filter)
    requires cfg.Valid() && CleanOrg(services, ous) && WellFormed(AfterLinks(t, cfg, services, ous, filter).nodes)
    ensures var linked, org, r :=
              AfterLinks(t, cfg, services, ous, filter), AfterSubdirs(t, cfg, services, ous, filter), Applied(t, cfg, services, ous, filter);
            var jobs := ExplicitJobs(cfg.rootdir, cfg.symlinks);
            && WellFormed(org.nodes) && WellFormed(r.nodes) && AddsDirs(linked.nodes, org.nodes) && Grows(org.nodes, r.nodes)
            && r.acls == org.acls && (!r.err ==> !linked.err && !org.err && forall l :: 0 <= l < |jobs| ==> IsDestSymlink(r.nodes, jobs[l].dest, jobs[l].path))
  {
    hide AfterLinks, RunJobs, RunLinkJobs, WellFormed, AddsDirs, IsDestSymlink, SubdirJobs, ExplicitJobs, Applied;
    AppliedStages(t, cfg, services, ous, filter);
    SubdirJobsClean(cfg.OrgUnitRoot(), ous);
    JobsAddDirs(AfterLinks(t, cfg, services, ous, filter), SubdirJobs(cfg.OrgUnitRoot(), ous));
    AbsIsKey(cfg.rootdir);
    ExplicitClean(cfg.rootdir, cfg.symlinks);
    LinkJobsPass(AfterSubdirs(t, cfg, services, ous, filter), ExplicitJobs(cfg.rootdir, cfg.symlinks));
  }

  /** A link in an org unit directory that the link stage removes. */
  ghost predicate StaleLink(base: Nodes, services: seq<Service>, ous: seq<OrgUnit>, filter: Filter, ds: seq<string>, p: string)
    requires |ds| == |ous|
  {
    && p in base && base[p].Link?
    && exists i :: 0 <= i < |ds| && ChildOf(p, ds[i]) && p[|ds[i]| + 1..] !in AcceptedServices(services, ous[i], filter)
  }

  ghost function Settled(base: Nodes, services: seq<Service>, ous: seq<OrgUnit>, filter: Filter, ds: seq<string>): Nodes
    requires |ds| == |ous|
  {
    map p | p in base && !StaleLink(base, services, ous, filter, ds, p) :: base[p]
  }

  /** The walk to the directory of org unit `i` uses no such link. */
  ghost predicate Reaches(base: Nodes, cfg: Config, services: seq<Service>, ous: seq<OrgUnit>, filter: Filter, ds: seq<string>, i: nat)
    requires |ds| == |ous| && i < |ous|
  {
    Resolve(Settled(base, services, ous, filter, ds), cfg.OrgUnitRoot() + "/" + ous[i].name) == Some(ds[i])
  }

  /** Every directory holds the links of its owner. */
  ghost predicate OwnersLinked(
    nodes: Nodes, cfg: Config, services: seq<Service>, ous: seq<OrgUnit>, filter: Filter, ds: seq<string>)
  {
    |ds| == |ous| && forall i :: 0 <= i < |ous| && LastOf(ds, i, |ous|) ==>
      && OuLinked(nodes, ds[i], cfg.serviceDir, ous[i], services, filter)
      && NoStaleLinks(nodes, ds[i], ous[i], services, filter)
  }

  /** The link stage of the run. */
  lemma RunLinks(
    t: Tree, cfg: Config, services: seq<Service>, ous: seq<OrgUnit>, filter: Filter, ds: seq<string>, base: Nodes)
    requires LinkStart(t, cfg, services, ous, filter, ds, base)
    ensures var linked, r := AfterLinks(t, cfg, services, ous, filter), Applied(t, cfg, services, ous, filter);
            && |ds| == |ous| && WellFormed(linked.nodes) && WellFormed(r.nodes) && Grows(linked.nodes, r.nodes)
            && linked.acls == AfterOuDirs(t, cfg, services, ous, filter).acls
            && NewIn(AfterOuDirs(t, cfg, services, ous, filter).nodes, linked.nodes, ds)
            && NewIn(linked.nodes, AfterOuDirs(t, cfg, services, ous, filter).nodes, ds)
            && KeepsBut(base, linked.nodes, ds, |ous|) && OwnersLinked(linked.nodes, cfg, services, ous, filter, ds)
  {
    hide AfterOuDirs, Applied, WellFormed, OuLinked, NoStaleLinks, Leads, Grows, AddsDirs, IsDestSymlink, Resolve,
         OrgUnitServiceLinks, AfterSubdirs, ExplicitJobs, NewIn, KeepsBut, NotReplaced;
    var made, root := AfterOuDirs(t, cfg, services, ous, filter), cfg.OrgUnitRoot();
    AfterOuDirsWellFormed(t, cfg, services, ous, filter);
    LeadsLength(base, root, ous, ds);
    assert ous[..|ous|] == ous;
    LinksStage(base, made, root, cfg.serviceDir, ous, ds, |ous|, services, filter);
    LaterStages(t, cfg, services, ous, filter);
    var linked, org, r :=
      AfterLinks(t, cfg, services, ous, filter), AfterSubdirs(t, cfg, services, ous, filter), Applied(t, cfg, services, ous, filter);
    AddsDirsGrows(linked.nodes, org.nodes);
    GrowsTransitive(linked.nodes, org.nodes, r.nodes);
  }

  /** A link that is enough for a walk is in no shared directory. */
  lemma OnlyOwner(base: Nodes, root: string, ous: seq<OrgUnit>, ds: seq<string>, p: string, m: nat)
    requires Leads(base, root, ous, ds) && m < |ds| && p in base && base[p].Link? && ChildOf(p, ds[m])
    ensures LastOf(ds, m, |ds|)
  {
    hide Resolve;
  }

  /** What stays of the part: everything but the links that are removed. */
  lemma SettledStays(
    base: Nodes, linked: Nodes, cfg: Config, services: seq<Service>, ous: seq<OrgUnit>, filter: Filter, ds: seq<string>)
    requires Leads(base, cfg.OrgUnitRoot(), ous, ds) && |ds| == |ous|
    requires KeepsBut(base, linked, ds, |ous|) && OwnersLinked(linked, cfg, services, ous, filter, ds)
    ensures forall p :: p in base ==> (p in linked <==> p in Settled(base, services, ous, filter, ds))
  {
    hide Resolve, LinkDest, Leads, LastOf;
    forall p | p in base ensures p in linked <==> p in Settled(base, services, ous, filter, ds) {
      if p in linked && StaleLink(base, services, ous, filter, ds, p) {
        var m :| 0 <= m < |ds| && ChildOf(p, ds[m]) && p[|ds[m]| + 1..] !in AcceptedServices(services, ous[m], filter);
        OnlyOwner(base, cfg.OrgUnitRoot(), ous, ds, p, m);
      }
      if p !in linked && !StaleLink(base, services, ous, filter, ds, p) {
        var m :| 0 <= m < |ds| && ChildOf(p, ds[m]);
        OnlyOwner(base, cfg.OrgUnitRoot(), ous, ds, p, m);
        assert p[|ds[m]| + 1..] in AcceptedServices(services, ous[m], filter);
        var j :| 0 <= j < |services| && filter(services[j], ous[m]) && services[j].name == p[|ds[m]| + 1..];
        ChildSplit(p, ds[m]);
      }
    }
  }

  /** In the final tree, the walk to an org unit directory leads to the same directory if it
      uses no link that is removed, and nowhere otherwise. */
  lemma FinalWalk(
    t: Tree, cfg: Config, services: seq<Service>, ous: seq<OrgUnit>, filter: Filter, ds: seq<string>, base: Nodes, i: nat)
    requires LinkRun(t, cfg, services, ous, filter, ds, base) && i < |ous|
    ensures |ds| == |ous| && IsDir(Applied(t, cfg, services, ous, filter).nodes, ds[i])
    ensures Resolve(Applied(t, cfg, services, ous, filter).nodes, cfg.OrgUnitRoot() + "/" + ous[i].name) ==
            if Reaches(base, cfg, services, ous, filter, ds, i) then Some(ds[i]) else None
  {
    hide Applied, AfterLinks, AfterOuDirs, WellFormed, Resolve, OwnersLinked, NewIn, StaleLink;
    RunLinks(t, cfg, services, ous, filter, ds, base);
    var linked, r := AfterLinks(t, cfg, services, ous, filter).nodes, Applied(t, cfg, services, ous, filter).nodes;
    var dir, settled := cfg.OrgUnitRoot() + "/" + ous[i].name, Settled(base, services, ous, filter, ds);
    SettledStays(base, linked, cfg, services, ous, filter, ds);
    assert Agrees(base, r) && Grows(settled, r) && Grows(Meet(base, r), settled);
    if Resolve(r, dir).Some? {
      ResolveMeets(base, r, dir);
      ResolveGrows(Meet(base, r), settled, dir);
    }
    if Resolve(settled, dir).Some? { ResolveGrows(settled, r, dir); }
  }

  lemma AddsDirsGrows(n0: Nodes, n1: Nodes)
    requires AddsDirs(n0, n1)
    ensures Grows(n0, n1)
  {
  }

  /** A link of the final tree was there after the link stage or is an explicit one. */
  lemma FinalLink(t: Tree, cfg: Config, services: seq<Service>, ous: seq<OrgUnit>, filter: Filter, p: string, dest: string)
    requires cfg.Valid() && CleanOrg(services, ous) && WellFormed(AfterLinks(t, cfg, services, ous, filter).nodes)
    requires !Applied(t, cfg, services, ous, filter).err
    ensures var linked, r := AfterLinks(t, cfg, services, ous, filter), Applied(t, cfg, services, ous, filter);
            && ((p in linked.nodes && linked.nodes[p] == Link(dest)) || Remade(r.nodes, cfg, p, dest) <==>
                p in r.nodes && r.nodes[p] == Link(dest))
  {
    hide AfterLinks, AfterSubdirs, Applied, WellFormed, Locate, RunLinkJobs, ExplicitJobs;
    LaterStages(t, cfg, services, ous, filter);
    AppliedStages(t, cfg, services, ous, filter);
    AbsIsKey(cfg.rootdir);
    ExplicitClean(cfg.rootdir, cfg.symlinks);
    var linked, org, r :=
      AfterLinks(t, cfg, services, ous, filter), AfterSubdirs(t, cfg, services, ous, filter), Applied(t, cfg, services, ous, filter);
    var jobs := ExplicitJobs(cfg.rootdir, cfg.symlinks);
    if p in r.nodes && r.nodes[p] == Link(dest) && p !in linked.nodes {
      LinkJobsAdd(org, jobs, p);
      var l :| 0 <= l < |jobs| && Locate(r.nodes, jobs[l].path) == Some(p) && r.nodes[p] == Link(jobs[l].dest);
      assert cfg.symlinks[l].target == dest;
    }
    if Remade(r.nodes, cfg, p, dest) {
      var l :| 0 <= l < |cfg.symlinks| && Locate(r.nodes, cfg.rootdir + "/" + cfg.symlinks[l].path) == Some(p) && cfg.symlinks[l].target == dest;
      assert IsDestSymlink(r.nodes, jobs[l].dest, jobs[l].path);
    }
  }

  /** Which service links a run without error leaves: those to whose directory the walk still
      leads, and which the last org unit in this directory also wants or an explicit link
      makes again. */
  lemma AppliedLinkIff(
    t: Tree, cfg: Config, services: seq<Service>, ous: seq<OrgUnit>, filter: Filter, ds: seq<string>, base: Nodes, i: nat, j: nat)
    requires LinkRun(t, cfg, services, ous, filter, ds, base)
    requires i < |ous| && j < |services| && filter(services[j], ous[i])
    ensures |ds| == |ous|
    ensures var r, dest := Applied(t, cfg, services, ous, filter).nodes, LinkDest(cfg.serviceDir, ous[i], services[j]);
            var path, p := cfg.OrgUnitRoot() + "/" + ous[i].name + "/" + services[j].name, ds[i] + "/" + services[j].name;
            && (Stays(r, cfg, services, ous, filter, ds, i, j) ==> p in r && r[p] == Link(dest))
            && (DistinctServices(services) && p in r && r[p] == Link(dest) ==> Stays(r, cfg, services, ous, filter, ds, i, j))
            && (IsDestSymlink(r, dest, path) <==>
                Reaches(base, cfg, services, ous, filter, ds, i) && p in r && r[p] == Link(dest))
  {
    hide Applied, AfterLinks, AfterOuDirs, WellFormed, OuLinked, NoStaleLinks, Resolve, LinkDest, Leads, KeepsBut, Kept, Remade, Reaches,
         DistinctServices, NewIn, NotReplaced, Grows;
    RunLinks(t, cfg, services, ous, filter, ds, base);
    var linked, r := AfterLinks(t, cfg, services, ous, filter).nodes, Applied(t, cfg, services, ous, filter).nodes;
    var dest := LinkDest(cfg.serviceDir, ous[i], services[j]);
    LinkAfterStage(linked, cfg, services, ous, filter, ds, i, j);
    FinalLink(t, cfg, services, ous, filter, ds[i] + "/" + services[j].name, dest);
    FinalWalk(t, cfg, services, ous, filter, ds, base, i);
    var dir := cfg.OrgUnitRoot() + "/" + ous[i].name;
    MakeChild(dir, services[j].name);
    if Resolve(r, dir).Some? { LocateLed(r, dir, ds[i], services[j].name); }
  }

  /** The service link is kept, or an explicit link with the same target takes its place. */
  ghost predicate Stays(
    nodes: Nodes, cfg: Config, services: seq<Service>, ous: seq<OrgUnit>, filter: Filter, ds: seq<string>, i: nat, j: nat)
    requires |ds| == |ous| && i < |ous| && j < |services|
  {
    || Kept(cfg, services, ous, filter, ds, i, j)
    || Remade(nodes, cfg, ds[i] + "/" + services[j].name, LinkDest(cfg.serviceDir, ous[i], services[j]))
  }

  /** The walk to every org unit directory with services still leads there, and every link
      stays. */
  ghost predicate AllStay(
    nodes: Nodes, base: Nodes, cfg: Config, services: seq<Service>, ous: seq<OrgUnit>, filter: Filter, ds: seq<string>)
    requires |ds| == |ous|
  {
    forall i, j :: 0 <= i < |ous| && 0 <= j < |services| && filter(services[j], ous[i]) ==>
      Reaches(base, cfg, services, ous, filter, ds, i) && Stays(nodes, cfg, services, ous, filter, ds, i, j)
  }

  lemma StayPasses(
    t: Tree, cfg: Config, services: seq<Service>, ous: seq<OrgUnit>, filter: Filter, ds: seq<string>, base: Nodes, i: nat)
    requires LinkRun(t, cfg, services, ous, filter, ds, base) && i < |ous| && |ds| == |ous|
    requires AllStay(Applied(t, cfg, services, ous, filter).nodes, base, cfg, services, ous, filter, ds)
    ensures OuPasses(Applied(t, cfg, services, ous, filter).nodes, cfg.OrgUnitRoot(), cfg.serviceDir, ous[i], services, filter)
  {
    hide Applied, IsDestSymlink, LinkDest, Stays, Reaches, LinkRun;
    forall j | 0 <= j < |services| && filter(services[j], ous[i])
      ensures IsDestSymlink(Applied(t, cfg, services, ous, filter).nodes, LinkDest(cfg.serviceDir, ous[i], services[j]),
                            cfg.OrgUnitRoot() + "/" + ous[i].name + "/" + services[j].name)
    {
      AppliedLinkIff(t, cfg, services, ous, filter, ds, base, i, j);
    }
  }

  lemma PassStays(
    t: Tree, cfg: Config, services: seq<Service>, ous: seq<OrgUnit>, filter: Filter, ds: seq<string>, base: Nodes, i: nat, j: nat)
    requires LinkRun(t, cfg, services, ous, filter, ds, base) && i < |ous| && |ds| == |ous| && DistinctServices(services)
    requires j < |services| && filter(services[j], ous[i])
    requires OuPasses(Applied(t, cfg, services, ous, filter).nodes, cfg.OrgUnitRoot(), cfg.serviceDir, ous[i], services, filter)
    ensures Reaches(base, cfg, services, ous, filter, ds, i)
    ensures Stays(Applied(t, cfg, services, ous, filter).nodes, cfg, services, ous, filter, ds, i, j)
  {
    hide Applied, IsDestSymlink, LinkDest, Stays, Reaches, LinkRun, DistinctServices;
    AppliedLinkIff(t, cfg, services, ous, filter, ds, base, i, j);
  }

  /** A run without error passes the check of the service links if and only if the walk to
      every org unit directory with services still leads there and every link stays. */
  lemma AppliedLinksPassIff(
    t: Tree, cfg: Config, services: seq<Service>, ous: seq<OrgUnit>, filter: Filter, ds: seq<string>, base: Nodes)
    requires LinkRun(t, cfg, services, ous, filter, ds, base)
    ensures |ds| == |ous|
    ensures var r := Applied(t, cfg, services, ous, filter).nodes;
            var pass := LinksPass(r, FsCheck.Entries(cfg, services, ous, filter));
            && (AllStay(r, base, cfg, services, ous, filter, ds) ==> pass)
            && (DistinctServices(services) && pass ==> AllStay(r, base, cfg, services, ous, filter, ds))
  {
    RunLength(t, cfg, services, ous, filter, ds, base);
    hide Applied, LinksPass, FsCheck.Entries, Stays, Reaches, AllOuLinks, DistinctServices, LinkRun, OuPasses, AllStay;
    var r, root := Applied(t, cfg, services, ous, filter).nodes, cfg.OrgUnitRoot();
    EntryLinksPass(r, cfg, services, ous, filter);
    AllOuLinksPassIff(r, root, cfg.serviceDir, ous, services, filter);
    if AllStay(r, base, cfg, services, ous, filter, ds) {
      forall i | 0 <= i < |ous| ensures OuPasses(r, root, cfg.serviceDir, ous[i], services, filter) {
        StayPasses(t, cfg, services, ous, filter, ds, base, i);
      }
    }
    if DistinctServices(services) && LinksPass(r, FsCheck.Entries(cfg, services, ous, filter)) {
      AllPassStay(t, cfg, services, ous, filter, ds, base);
    }
  }

  lemma AllPassStay(
    t: Tree, cfg: Config, services: seq<Service>, ous: seq<OrgUnit>, filter: Filter, ds: seq<string>, base: Nodes)
    requires LinkRun(t, cfg, services, ous, filter, ds, base) && |ds| == |ous| && DistinctServices(services)
    requires forall i :: 0 <= i < |ous| ==>
               OuPasses(Applied(t, cfg, services, ous, filter).nodes, cfg.OrgUnitRoot(), cfg.serviceDir, ous[i], services, filter)
    ensures AllStay(Applied(t, cfg, services, ous, filter).nodes, base, cfg, services, ous, filter, ds)
  {
    hide Applied, Stays, Reaches, DistinctServices, LinkRun, OuPasses;
    forall i, j | 0 <= i < |ous| && 0 <= j < |services| && filter(services[j], ous[i])
      ensures Reaches(base, cfg, services, ous, filter, ds, i)
              && Stays(Applied(t, cfg, services, ous, filter).nodes, cfg, services, ous, filter, ds, i, j)
    {
      PassStays(t, cfg, services, ous, filter, ds, base, i, j);
    }
  }

  lemma RunLength(
    t: Tree, cfg: Config, services: seq<Service>, ous: seq<OrgUnit>, filter: Filter, ds: seq<string>, base: Nodes)
    requires LinkStart(t, cfg, services, ous, filter, ds, base)
    ensures |ds| == |ous|
  {
    hide Applied, AfterOuDirs, Resolve;
  }

  // The explicit links

  lemma AnyLinkStage(t: Tree, root: string, serviceDir: string, ou: OrgUnit, services: seq<Service>, filter: Filter)
    requires WellFormed(t.nodes) && CleanServices(services)
    ensures WellFormed(OrgUnitLinks(t, root, serviceDir, ou, services, filter).nodes)
  {
    hide RunLinkJobs, RmUnexpected, WellFormed, Resolve;
    OuLinkJobsClean(root, serviceDir, ou, services, filter);
    var jobs := OuLinkJobs(root, serviceDir, ou, services, filter);
    LinkJobsPass(t, jobs);
    RmUnexpectedSpec(RunLinkJobs(t, jobs), root + "/" + ou.name, AcceptedServices(services, ou, filter), true);
  }

  ghost predicate CleanLinkJobs(jobs: seq<LinkJob>) {
    forall i :: 0 <= i < |jobs| ==> ChildOf(jobs[i].path, Parent(jobs[i].path))
  }

  lemma {:induction false} OuLinkJobsClean(root: string, serviceDir: string, ou: OrgUnit, services: seq<Service>, filter: Filter)
    requires CleanServices(services)
    ensures CleanLinkJobs(OuLinkJobs(root, serviceDir, ou, services, filter))
  {
    hide LinkDest;
    if services != [] {
      var n := |services| - 1;
      OuLinkJobsClean(root, serviceDir, ou, services[..n], filter);
      MakeChild(root + "/" + ou.name, services[n].name);
    }
  }

  lemma {:induction false} AnyLinksStage(
    t: Tree, root: string, serviceDir: string, ous: seq<OrgUnit>, services: seq<Service>, filter: Filter)
    requires WellFormed(t.nodes) && CleanServices(services)
    ensures WellFormed(OrgUnitServiceLinks(t, root, serviceDir, ous, services, filter).nodes)
  {
    hide OrgUnitLinks, WellFormed;
    if ous != [] {
      var n := |ous| - 1;
      AnyLinksStage(t, root, serviceDir, ous[..n], services, filter);
      AnyLinkStage(OrgUnitServiceLinks(t, root, serviceDir, ous[..n], services, filter), root, serviceDir, ous[n], services, filter);
    }
  }

  lemma RunStages(t: Tree, cfg: Config, services: seq<Service>, ous: seq<OrgUnit>, filter: Filter)
    requires WellFormed(t.nodes) && cfg.Valid() && CleanOrg(services, ous)
    ensures WellFormed(AfterLinks(t, cfg, services, ous, filter).nodes) && WellFormed(Applied(t, cfg, services, ous, filter).nodes)
    ensures !Applied(t, cfg, services, ous, filter).err ==>
              !t.err && !ServicePart(t, cfg, services, ous, filter).err && !AfterOuDirs(t, cfg, services, ous, filter).err
  {
    hide AfterSubdirs, WellFormed, RunScript, RunJobs, RunLinkJobs, OrgUnitServiceLinks, IsDestSymlink, Applied, ServicePart;
    AfterOuDirsWellFormed(t, cfg, services, ous, filter);
    var made := AfterOuDirs(t, cfg, services, ous, filter);
    AnyLinksStage(made, cfg.OrgUnitRoot(), cfg.serviceDir, ous, services, filter);
    LaterStages(t, cfg, services, ous, filter);
    if made.err { ErrOus(made, cfg.OrgUnitRoot(), cfg.serviceDir, ous, services, filter); }
    var srv := ServicePart(t, cfg, services, ous, filter);
    ServicePartNoNewLinks(t, cfg, services, ous, filter);
    if srv.err {
      ScriptErr(srv, cfg.OrgUnitRoot(), ToplevelSh);
      ErrNoJobs(RunScript(srv, cfg.OrgUnitRoot(), ToplevelSh), OrgUnitJobs(cfg.OrgUnitRoot(), ous));
    }
  }

  /** From any tree, a run without error leaves all explicit links in place. */
  lemma AppliedExplicitPass(t: Tree, cfg: Config, services: seq<Service>, ous: seq<OrgUnit>, filter: Filter)
    requires WellFormed(t.nodes) && cfg.Valid() && CleanOrg(services, ous) && !Applied(t, cfg, services, ous, filter).err
    ensures ExplicitPass(Applied(t, cfg, services, ous, filter).nodes, ExplicitMap(cfg.rootdir, cfg.symlinks))
  {
    hide Applied, AfterLinks, WellFormed, IsDestSymlink, ExplicitPass, ExplicitJobs, AfterOuDirs, ServicePart;
    RunStages(t, cfg, services, ous, filter);
    LaterStages(t, cfg, services, ous, filter);
    var r := Applied(t, cfg, services, ous, filter);
    AbsIsKey(cfg.rootdir);
    ExplicitClean(cfg.rootdir, cfg.symlinks);
    var jobs := ExplicitJobs(cfg.rootdir, cfg.symlinks);
    forall l | 0 <= l < |cfg.symlinks| ensures IsDestSymlink(r.nodes, cfg.symlinks[l].target, cfg.rootdir + "/" + cfg.symlinks[l].path) {
      assert IsDestSymlink(r.nodes, jobs[l].dest, jobs[l].path);
    }
    ExplicitMapPasses(r.nodes, cfg.rootdir, cfg.symlinks);
  }

  // Org units with targets of their own

  predicate Operates(ou: OrgUnit, s: Service) {
    ou.isFacility && s.facility == ou.facility
  }

  lemma LinkDestParts(serviceDir: string, ou: OrgUnit, s: Service)
    requires CleanName(serviceDir) && CleanName(ou.name) && CleanName(s.name)
    ensures Parts(LinkDest(serviceDir, ou, s)) == Ups(2) + [serviceDir, s.name] + if Operates(ou, s) then [] else [ou.name]
    ensures LinkDest(serviceDir, ou, s) != ""
  {
    hide Join, Split;
    TopTarget(serviceDir, s.name);
    if !Operates(ou, s) { OuTarget(serviceDir, s.name, ou.name); }
  }

  /** Two org units link a service with the same target only if both operate it. */
  lemma DestsDiffer(serviceDir: string, a: OrgUnit, b: OrgUnit, s: Service)
    requires CleanName(serviceDir) && CleanName(a.name) && CleanName(b.name) && CleanName(s.name) && a.name != b.name
    requires LinkDest(serviceDir, a, s) == LinkDest(serviceDir, b, s)
    ensures Operates(a, s) && Operates(b, s)
  {
    hide Split, LinkDest;
    LinkDestParts(serviceDir, a, s);
    LinkDestParts(serviceDir, b, s);
    var top := Ups(2) + [serviceDir, s.name];
    assert (top + [a.name])[4] == a.name && (top + [b.name])[4] == b.name;
    assert |top + []| == 4 && |top + [a.name]| == 5 && |top + [b.name]| == 5;
  }

  /** Distinct names, and no two org units operate the same facility. */
  ghost predicate OwnTargets(ous: seq<OrgUnit>) {
    && DistinctOus(ous)
    && forall i, k :: 0 <= i < k < |ous| && ous[i].isFacility && ous[k].isFacility ==> ous[i].facility != ous[k].facility
  }

  lemma KeptIffOwner(
    cfg: Config, services: seq<Service>, ous: seq<OrgUnit>, filter: Filter, ds: seq<string>, i: nat, j: nat)
    requires |ds| == |ous| && i < |ous| && j < |services| && filter(services[j], ous[i])
    requires cfg.Valid() && CleanOrg(services, ous) && OwnTargets(ous)
    ensures Kept(cfg, services, ous, filter, ds, i, j) <==> Owner(ds, i) == i
  {
    hide LinkDest, Owner;
    var o := Owner(ds, i);
    if o != i && LinkDest(cfg.serviceDir, ous[o], services[j]) == LinkDest(cfg.serviceDir, ous[i], services[j]) {
      DestsDiffer(cfg.serviceDir, ous[i], ous[o], services[j]);
    }
  }

  /** No explicit link lies directly in an org unit directory. */
  ghost predicate ExplicitElsewhere(nodes: Nodes, cfg: Config, ds: seq<string>) {
    forall l, i :: 0 <= l < |cfg.symlinks| && 0 <= i < |ds| && Locate(nodes, cfg.rootdir + "/" + cfg.symlinks[l].path).Some? ==>
      !ChildOf(Locate(nodes, cfg.rootdir + "/" + cfg.symlinks[l].path).value, ds[i])
  }

  /** A run without error passes the check of the service links if and only if, for every org
      unit with services, the walk to its directory still leads there and no later org unit
      shares it. */
  lemma AppliedLinksPassApart(
    t: Tree, cfg: Config, services: seq<Service>, ous: seq<OrgUnit>, filter: Filter, ds: seq<string>, base: Nodes)
    requires LinkRun(t, cfg, services, ous, filter, ds, base) && DistinctServices(services) && OwnTargets(ous)
    requires ExplicitElsewhere(Applied(t, cfg, services, ous, filter).nodes, cfg, ds)
    ensures |ds| == |ous|
    ensures LinksPass(Applied(t, cfg, services, ous, filter).nodes, FsCheck.Entries(cfg, services, ous, filter)) <==>
            forall i :: 0 <= i < |ous| && AcceptedServices(services, ous[i], filter) != {} ==>
              Reaches(base, cfg, services, ous, filter, ds, i) && LastOf(ds, i, |ous|)
  {
    hide Applied, LinksPass, FsCheck.Entries, LinkDest, Kept, Leads, AfterOuDirs, AfterLinks, WellFormed, Locate, Reaches, NotReplaced, Grows;
    AppliedLinksPassIff(t, cfg, services, ous, filter, ds, base);
    var r := Applied(t, cfg, services, ous, filter).nodes;
    forall i, j | 0 <= i < |ous| && 0 <= j < |services| && filter(services[j], ous[i])
      ensures Stays(r, cfg, services, ous, filter, ds, i, j) <==> LastOf(ds, i, |ous|)
    {
      KeptIffOwner(cfg, services, ous, filter, ds, i, j);
      OwnerIsLast(ds, i);
      MakeChild(ds[i], services[j].name);
    }
    forall i | 0 <= i < |ous|
      ensures AcceptedServices(services, ous[i], filter) != {} <==> exists j :: 0 <= j < |services| && filter(services[j], ous[i])
    {
      SomeAccepted(services, ous[i], filter);
    }
  }

  lemma OwnerIsLast(ds: seq<string>, i: nat)
    requires i < |ds|
    ensures Owner(ds, i) == i <==> LastOf(ds, i, |ds|)
  {
  }

  lemma SomeAccepted(services: seq<Service>, ou: OrgUnit, filter: Filter)
    ensures AcceptedServices(services, ou, filter) != {} <==> exists j :: 0 <= j < |services| && filter(services[j], ou)
  {
    if j :| 0 <= j < |services| && filter(services[j], ou) { assert services[j].name in AcceptedServices(services, ou, filter); }
    if n :| n in AcceptedServices(services, ou, filter) {
      var j :| 0 <= j < |services| && filter(services[j], ou) && services[j].name == n;
    }
  }

  // Walks without links that could be removed

  ghost predicate LinkIn(nodes: Nodes, ds: seq<string>, p: string) {
    p in nodes && nodes[p].Link? && exists i :: 0 <= i < |ds| && ChildOf(p, ds[i])
  }

  /** The tree without the links directly in these directories. */
  ghost function Stripped(nodes: Nodes, ds: seq<string>): Nodes {
    map p | p in nodes && !LinkIn(nodes, ds, p) :: nodes[p]
  }

  /** No walk to an org unit directory uses a link directly in one of them. */
  ghost predicate Independent(nodes: Nodes, root: string, ous: seq<OrgUnit>, ds: seq<string>) {
    && |ds| == |ous|
    && forall i :: 0 <= i < |ous| ==> Resolve(Stripped(nodes, ds), root + "/" + ous[i].name) == Some(ds[i]) && IsDir(nodes, ds[i])
  }

  /** Then every walk still leads to its directory, whatever is added later. */
  lemma IndependentRun(t: Tree, cfg: Config, services: seq<Service>, ous: seq<OrgUnit>, filter: Filter, ds: seq<string>)
    requires WellFormed(t.nodes) && cfg.Valid() && CleanOrg(services, ous) && !Applied(t, cfg, services, ous, filter).err
    requires Independent(AfterOuDirs(t, cfg, services, ous, filter).nodes, cfg.OrgUnitRoot(), ous, ds)
    ensures |ds| == |ous|
    ensures var base := Stripped(AfterOuDirs(t, cfg, services, ous, filter).nodes, ds);
            && LinkRun(t, cfg, services, ous, filter, ds, base)
            && forall i :: 0 <= i < |ous| ==> Reaches(base, cfg, services, ous, filter, ds, i)
  {
    hide Applied, AfterOuDirs, AfterLinks, WellFormed, Resolve, OwnersLinked, NewIn, AcceptedServices;
    var made := AfterOuDirs(t, cfg, services, ous, filter).nodes;
    var base := Stripped(made, ds);
    RunLinks(t, cfg, services, ous, filter, ds, base);
    assert Settled(base, services, ous, filter, ds) == base;
  }

  ghost predicate AllLead(nodes: Nodes, root: string, ous: seq<OrgUnit>) {
    forall i :: 0 <= i < |ous| ==>
      var r := Resolve(nodes, root + "/" + ous[i].name); r.Some? && IsDir(nodes, r.value)
  }

  /** Without an error, the path of every org unit leads to a directory before the link
      stage. */
  lemma {:induction false} OuDirsLead(t: Tree, root: string, ous: seq<OrgUnit>)
    requires WellFormed(t.nodes) && (forall i :: 0 <= i < |ous| ==> CleanName(ous[i].name)) && !RunJobs(t, OrgUnitJobs(root, ous)).err
    ensures AllLead(RunJobs(t, OrgUnitJobs(root, ous)).nodes, root, ous)
  {
    hide RunScript, WellFormed, Resolve;
    if ous != [] {
      var n := |ous| - 1;
      var mid, job := RunJobs(t, OrgUnitJobs(root, ous[..n])), OrgUnitJob(root, ous[n]);
      RunOneMore(t, OrgUnitJobs(root, ous[..n]), job);
      var r := RunScript(mid, job.path, job.script);
      ScriptErr(mid, job.path, job.script);
      OuDirsLead(t, root, ous[..n]);
      OrgUnitJobsClean(root, ous[..n]);
      JobsAddDirs(t, OrgUnitJobs(root, ous[..n]));
      MakeChild(root, ous[n].name);
      ScriptAddsDirs(mid, job.path, job.script);
      ScriptLeads(mid, root, ous[n].name, job.script);
      forall i | 0 <= i < |ous|
        ensures var d := Resolve(r.nodes, root + "/" + ous[i].name); d.Some? && IsDir(r.nodes, d.value)
      {
        if i < n {
          assert ous[..n][i] == ous[i];
          ResolveGrows(mid.nodes, r.nodes, root + "/" + ous[i].name);
        }
      }
    }
  }

  /** Where no two org units share a directory, the whole tree will do: every run without
      error is covered. */
  lemma AloneRun(t: Tree, cfg: Config, services: seq<Service>, ous: seq<OrgUnit>, filter: Filter, ds: seq<string>)
    requires WellFormed(t.nodes) && cfg.Valid() && CleanOrg(services, ous) && !Applied(t, cfg, services, ous, filter).err
    requires |ds| == |ous| && forall i, k :: 0 <= i < k < |ds| ==> ds[i] != ds[k]
    requires var made := AfterOuDirs(t, cfg, services, ous, filter).nodes;
             forall i :: 0 <= i < |ous| && Resolve(made, cfg.OrgUnitRoot() + "/" + ous[i].name).Some? ==>
               Resolve(made, cfg.OrgUnitRoot() + "/" + ous[i].name) == Some(ds[i])
    ensures LinkStart(t, cfg, services, ous, filter, ds, AfterOuDirs(t, cfg, services, ous, filter).nodes)
  {
    hide Applied, ServicePart, RunScript, RunJobs, WellFormed, Resolve, AfterLinks;
    RunStages(t, cfg, services, ous, filter);
    ServicePartNoNewLinks(t, cfg, services, ous, filter);
    var srv := ServicePart(t, cfg, services, ous, filter);
    MakeChild(cfg.rootdir, cfg.orgUnitDir);
    ScriptAddsDirs(srv, cfg.OrgUnitRoot(), ToplevelSh);
    OuDirsLead(RunScript(srv, cfg.OrgUnitRoot(), ToplevelSh), cfg.OrgUnitRoot(), ous);
  }

  // Org unit directories that are no links

  function OwnDirs(root: string, ous: seq<OrgUnit>): (ds: seq<string>)
    ensures |ds| == |ous| && forall i :: 0 <= i < |ous| ==> ds[i] == root + "/" + ous[i].name
  {
    if ous == [] then [] else OwnDirs(root, ous[..|ous| - 1]) + [root + "/" + ous[|ous| - 1].name]
  }

  lemma StrippedWellFormed(nodes: Nodes, ds: seq<string>)
    requires WellFormed(nodes)
    ensures WellFormed(Stripped(nodes, ds))
  {
    assert !LinkIn(nodes, ds, "");
  }

  lemma OwnDirsIndependent(nodes: Nodes, root: string, ous: seq<OrgUnit>)
    requires WellFormed(nodes) && OuDirsThere(nodes, root, ous)
    ensures Independent(nodes, root, ous, OwnDirs(root, ous))
  {
    hide WellFormed, Resolve;
    var ds := OwnDirs(root, ous);
    StrippedWellFormed(nodes, ds);
    forall i | 0 <= i < |ous| ensures Resolve(Stripped(nodes, ds), root + "/" + ous[i].name) == Some(ds[i]) {
      ResolveDir(Stripped(nodes, ds), ds[i]);
    }
  }

  lemma OwnDirsOwners(root: string, ous: seq<OrgUnit>, i: nat)
    requires DistinctOus(ous) && i < |ous|
    ensures Owner(OwnDirs(root, ous), i) == i
  {
    var k := Owner(OwnDirs(root, ous), i);
    assert (root + "/" + ous[i].name)[|root| + 1..] == ous[i].name;
    assert (root + "/" + ous[k].name)[|root| + 1..] == ous[k].name;
  }

  lemma NoLinksBeforeOus(t: Tree, cfg: Config, services: seq<Service>, ous: seq<OrgUnit>, filter: Filter, p: string)
    requires WellFormed(t.nodes) && cfg.Valid() && CleanOrg(services, ous) && NoLinks(t.nodes, p)
    ensures var top := RunScript(ServicePart(t, cfg, services, ous, filter), cfg.OrgUnitRoot(), ToplevelSh);
            WellFormed(top.nodes) && NoLinks(top.nodes, p)
  {
    hide ServicePart, WellFormed, RunScript, NoLinks;
    ServicePartNoNewLinks(t, cfg, services, ous, filter);
    var srv := ServicePart(t, cfg, services, ous, filter);
    MakeChild(cfg.rootdir, cfg.orgUnitDir);
    ScriptAddsDirs(srv, cfg.OrgUnitRoot(), ToplevelSh);
    NoLinksStays(t.nodes, srv.nodes, p);
    NoLinksStays(srv.nodes, RunScript(srv, cfg.OrgUnitRoot(), ToplevelSh).nodes, p);
  }

  lemma OuDirsMade(t: Tree, cfg: Config, services: seq<Service>, ous: seq<OrgUnit>, filter: Filter)
    requires WellFormed(t.nodes) && cfg.Valid() && CleanOrg(services, ous)
    requires forall i :: 0 <= i < |ous| ==> NoLinks(t.nodes, cfg.OrgUnitRoot() + "/" + ous[i].name)
    ensures var made := AfterOuDirs(t, cfg, services, ous, filter); !made.err ==> OuDirsThere(made.nodes, cfg.OrgUnitRoot(), ous)
  {
    hide ServicePart, WellFormed, RunScript, NoLinks, RunJobs, OuDirsThere, AddsDirs;
    var root := cfg.OrgUnitRoot();
    AfterOuDirsWellFormed(t, cfg, services, ous, filter);
    var top := RunScript(ServicePart(t, cfg, services, ous, filter), root, ToplevelSh);
    forall i | 0 <= i < |ous| ensures NoLinks(top.nodes, root + "/" + ous[i].name) {
      NoLinksBeforeOus(t, cfg, services, ous, filter, root + "/" + ous[i].name);
    }
    ServicePartNoNewLinks(t, cfg, services, ous, filter);
    MakeChild(cfg.rootdir, cfg.orgUnitDir);
    ScriptAddsDirs(ServicePart(t, cfg, services, ous, filter), root, ToplevelSh);
    AbsIsKey(cfg.rootdir);
    KeyChild(cfg.rootdir, cfg.orgUnitDir);
    OuDirsStage(top, root, ous);
  }

  lemma NoLinksRun(t: Tree, cfg: Config, services: seq<Service>, ous: seq<OrgUnit>, filter: Filter)
    requires WellFormed(t.nodes) && cfg.Valid() && CleanOrg(services, ous)
    requires forall i :: 0 <= i < |ous| ==> NoLinks(t.nodes, cfg.OrgUnitRoot() + "/" + ous[i].name)
    requires !Applied(t, cfg, services, ous, filter).err
    ensures Independent(AfterOuDirs(t, cfg, services, ous, filter).nodes, cfg.OrgUnitRoot(), ous, OwnDirs(cfg.OrgUnitRoot(), ous))
  {
    hide Applied, AfterOuDirs, WellFormed, NoLinks, OuDirsThere, AfterLinks, ServicePart, Independent;
    RunStages(t, cfg, services, ous, filter);
    OuDirsMade(t, cfg, services, ous, filter);
    AfterOuDirsWellFormed(t, cfg, services, ous, filter);
    OwnDirsIndependent(AfterOuDirs(t, cfg, services, ous, filter).nodes, cfg.OrgUnitRoot(), ous);
  }

  /** Where no org unit directory is, or lies below, a link, a run without error passes both
      link checks. */
  lemma AppliedLinksPass(t: Tree, cfg: Config, services: seq<Service>, ous: seq<OrgUnit>, filter: Filter)
    requires WellFormed(t.nodes) && cfg.Valid() && CleanOrg(services, ous) && DistinctOus(ous)
    requires forall i :: 0 <= i < |ous| ==> NoLinks(t.nodes, cfg.OrgUnitRoot() + "/" + ous[i].name)
    requires !Applied(t, cfg, services, ous, filter).err
    ensures LinksPass(Applied(t, cfg, services, ous, filter).nodes, FsCheck.Entries(cfg, services, ous, filter))
    ensures ExplicitPass(Applied(t, cfg, services, ous, filter).nodes, ExplicitMap(cfg.rootdir, cfg.symlinks))
  {
    hide Applied, LinksPass, FsCheck.Entries, LinkDest, LinkRun, WellFormed, NoLinks, ExplicitPass, Owner, Independent, Reaches, AfterOuDirs,
         Stripped;
    AppliedExplicitPass(t, cfg, services, ous, filter);
    NoLinksRun(t, cfg, services, ous, filter);
    var ds := OwnDirs(cfg.OrgUnitRoot(), ous);
    IndependentRun(t, cfg, services, ous, filter, ds);
    var base := Stripped(AfterOuDirs(t, cfg, services, ous, filter).nodes, ds);
    AppliedLinksPassIff(t, cfg, services, ous, filter, ds, base);
    forall i, j | 0 <= i < |ous| && 0 <= j < |services| && filter(services[j], ous[i])
      ensures Kept(cfg, services, ous, filter, ds, i, j)
    {
      OwnDirsOwners(cfg.OrgUnitRoot(), ous, i);
    }
  }
}
