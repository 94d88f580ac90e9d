/** The independent checker: which paths, links and ACLs it expects, and how it
    compares them with what is there. */
module FsCheck {
  import opened Strings
  import opened Paths
  import opened Sharing
  import opened FileSystem
  import opened PosixAcl
  import opened DirScripts
  import opened Organization
  import opened FsApply
  import opened FsckAcl
  import opened ScriptsMeetCheck

  /** A desired path: a directory with an ACL or a link with a target. */
  datatype Entry = DirEntry(path: string, acl: ACL) | LinkEntry(path: string, dest: string)

  // The expected lists

  function ServiceEntry(root: string, s: Service): Entry {
    DirEntry(root + "/" + s.name, ServiceACL(0, s.serviceGroup.gid, s.serviceOpsGroup.gid, s.superGroup.gid, s.access))
  }

  function SouEntry(root: string, s: Service, ou: OrgUnit): Entry {
    DirEntry(root + "/" + s.name + "/" + ou.name,
             ServiceOrgUnitACL(0, ou.orgUnitGroup.gid, s.serviceOpsGroup.gid, s.serviceGroup.gid, s.superGroup.gid))
  }

  function OrgUnitEntry(root: string, ou: OrgUnit): Entry {
    DirEntry(root + "/" + ou.name, OrgUnitACL(0, ou.orgUnitGroup.gid))
  }

  function ServiceLinkEntry(root: string, serviceDir: string, ou: OrgUnit, s: Service): Entry {
    var dest := Join(["../..", serviceDir, s.name]);
    LinkEntry(root + "/" + ou.name + "/" + s.name,
              if ou.isFacility && s.facility == ou.facility then dest else Join([dest, ou.name]))
  }

  function SubdirEntry(root: string, ou: OrgUnit, d: DirWithPolicy): Entry {
    DirEntry(root + "/" + ou.name + "/" + d.name,
             match d.policy
             case GroupPolicy => SubdirGroupACL(0, ou.orgUnitGroup.gid)
             case OwnerPolicy => SubdirOwnerACL(0, ou.orgUnitGroup.gid)
             case ManagerPolicy => SubdirManagerACL(0, ou.orgUnitGroup.gid))
  }

  function ServiceDirs(root: string, services: seq<Service>): seq<Entry> {
    if services == [] then []
    else ServiceDirs(root, services[..|services| - 1]) + [ServiceEntry(root, services[|services| - 1])]
  }

  function SouDirs(root: string, s: Service, ous: seq<OrgUnit>, filter: Filter): seq<Entry> {
    if ous == [] then []
    else
      var n := |ous| - 1;
      SouDirs(root, s, ous[..n], filter) + (if filter(s, ous[n]) then [SouEntry(root, s, ous[n])] else [])
  }

  function AllSouDirs(root: string, services: seq<Service>, ous: seq<OrgUnit>, filter: Filter): seq<Entry> {
    if services == [] then []
    else
      var n := |services| - 1;
      AllSouDirs(root, services[..n], ous, filter) + SouDirs(root, services[n], ous, filter)
  }

  function OrgUnitDirs(root: string, ous: seq<OrgUnit>): seq<Entry> {
    if ous == [] then []
    else OrgUnitDirs(root, ous[..|ous| - 1]) + [OrgUnitEntry(root, ous[|ous| - 1])]
  }

  function OuLinks(root: string, serviceDir: string, ou: OrgUnit, services: seq<Service>, filter: Filter): seq<Entry> {
    if services == [] then []
    else
      var n := |services| - 1;
      OuLinks(root, serviceDir, ou, services[..n], filter) +
      (if filter(services[n], ou) then [ServiceLinkEntry(root, serviceDir, ou, services[n])] else [])
  }

  function AllOuLinks(root: string, serviceDir: string, ous: seq<OrgUnit>, services: seq<Service>, filter: Filter): seq<Entry> {
    if ous == [] then []
    else
      var n := |ous| - 1;
      AllOuLinks(root, serviceDir, ous[..n], services, filter) + OuLinks(root, serviceDir, ous[n], services, filter)
  }

  function OuSubdirs(root: string, ou: OrgUnit, subdirs: seq<DirWithPolicy>): seq<Entry> {
    if subdirs == [] then []
    else OuSubdirs(root, ou, subdirs[..|subdirs| - 1]) + [SubdirEntry(root, ou, subdirs[|subdirs| - 1])]
  }

  function AllSubdirs(root: string, ous: seq<OrgUnit>): seq<Entry> {
    if ous == [] then []
    else
      var n := |ous| - 1;
      AllSubdirs(root, ous[..n]) + OuSubdirs(root, ous[n], ous[n].subdirs)
  }

  const Toplevel := SimpleACL(0, 0, RWX, R_X, R_X)

  function Entries(cfg: Config, services: seq<Service>, ous: seq<OrgUnit>, filter: Filter): seq<Entry> {
    [DirEntry(cfg.rootdir, Toplevel), DirEntry(cfg.ServiceRoot(), Toplevel), DirEntry(cfg.OrgUnitRoot(), Toplevel)] +
    ServiceDirs(cfg.ServiceRoot(), services) +
    AllSouDirs(cfg.ServiceRoot(), services, ous, filter) +
    OrgUnitDirs(cfg.OrgUnitRoot(), ous) +
    AllOuLinks(cfg.OrgUnitRoot(), cfg.serviceDir, ous, services, filter) +
    AllSubdirs(cfg.OrgUnitRoot(), ous)
  }

  /** The explicit links by path; a later one replaces an earlier one. */
  function ExplicitMap(root: string, links: seq<ExplicitLink>): map<string, string> {
    if links == [] then map[]
    else
      var n := |links| - 1;
      ExplicitMap(root, links[..n])[root + "/" + links[n].path := links[n].target]
  }

  method ServiceDirsList(root: string, services: seq<Service>) returns (list: seq<Entry>)
    ensures list == ServiceDirs(root, services)
  {
    list := [];
    for i := 0 to |services|
      invariant list == ServiceDirs(root, services[..i])
    {
      Last(services, i);
      list := list + [ServiceEntry(root, services[i])];
    }
    assert services[..|services|] == services;
  }

  method ServiceOrgUnitDirsList(root: string, services: seq<Service>, ous: seq<OrgUnit>, filter: Filter)
    returns (list: seq<Entry>)
    ensures list == AllSouDirs(root, services, ous, filter)
  {
    list := [];
    for i := 0 to |services|
      invariant list == AllSouDirs(root, services[..i], ous, filter)
    {
      Last(services, i);
      ghost var before := list;
      for j := 0 to |ous|
        invariant list == before + SouDirs(root, services[i], ous[..j], filter)
      {
        Last(ous, j);
        if filter(services[i], ous[j]) { list := list + [SouEntry(root, services[i], ous[j])]; }
      }
      assert ous[..|ous|] == ous;
    }
    assert services[..|services|] == services;
  }

  method OrgUnitDirsList(root: string, ous: seq<OrgUnit>) returns (list: seq<Entry>)
    ensures list == OrgUnitDirs(root, ous)
  {
    list := [];
    for i := 0 to |ous|
      invariant list == OrgUnitDirs(root, ous[..i])
    {
      Last(ous, i);
      list := list + [OrgUnitEntry(root, ous[i])];
    }
    assert ous[..|ous|] == ous;
  }

  method OrgUnitServiceLinksList(
    root: string, serviceDir: string, ous: seq<OrgUnit>, services: seq<Service>, filter: Filter)
    returns (list: seq<Entry>)
    ensures list == AllOuLinks(root, serviceDir, ous, services, filter)
  {
    list := [];
    for i := 0 to |ous|
      invariant list == AllOuLinks(root, serviceDir, ous[..i], services, filter)
    {
      Last(ous, i);
      ghost var before := list;
      for j := 0 to |services|
        invariant list == before + OuLinks(root, serviceDir, ous[i], services[..j], filter)
      {
        Last(services, j);
        if filter(services[j], ous[i]) { list := list + [ServiceLinkEntry(root, serviceDir, ous[i], services[j])]; }
      }
      assert services[..|services|] == services;
    }
    assert ous[..|ous|] == ous;
  }

  method OrgUnitSubdirsList(root: string, ous: seq<OrgUnit>) returns (list: seq<Entry>)
    ensures list == AllSubdirs(root, ous)
  {
    list := [];
    for i := 0 to |ous|
      invariant list == AllSubdirs(root, ous[..i])
    {
      Last(ous, i);
      ghost var before := list;
      var subdirs := ous[i].subdirs;
      for j := 0 to |subdirs|
        invariant list == before + OuSubdirs(root, ous[i], subdirs[..j])
      {
        Last(subdirs, j);
        list := list + [SubdirEntry(root, ous[i], subdirs[j])];
      }
      assert subdirs[..|subdirs|] == subdirs;
    }
    assert ous[..|ous|] == ous;
  }

  // The checks

  ghost predicate Listed(entries: seq<Entry>, p: string) {
    exists i :: 0 <= i < |entries| && entries[i].path == p
  }

  /** `find <subroot> -maxdepth 2`, which does not follow links. */
  function Found(nodes: Nodes, subroot: string): Option<set<string>> {
    match Locate(nodes, subroot)
    case None => None
    case Some(p) =>
      if p !in nodes then None
      else if nodes[p] != Dir then Some({subroot})
      else Some({subroot} + set q | q in nodes && (ChildOf(q, p) || (ChildOf(q, Parent(q)) && ChildOf(Parent(q), p))) ::
                  subroot + q[|p|..])
  }

  /** What is there down to two levels below a directory. */
  ghost predicate DepthTwo(nodes: Nodes, top: string, q: string) {
    || q == top
    || (exists a :: CleanName(a) && q == top + "/" + a && q in nodes)
    || (exists a, b :: CleanName(a) && CleanName(b) && q == top + "/" + a + "/" + b && q in nodes)
  }

  /** For a directory that is reached through no link, the listing is exactly that. */
  lemma FoundMeans(nodes: Nodes, top: string)
    requires WellFormed(nodes) && IsDir(nodes, top) && top != ""
    ensures Found(nodes, top).Some? && forall q :: q in Found(nodes, top).value <==> DepthTwo(nodes, top, q)
  {
    hide WellFormed, Locate;
    ParentThere(nodes, top);
    LocateInDir(nodes, top);
    forall q ensures q in Found(nodes, top).value <==> DepthTwo(nodes, top, q) {
      if q in Found(nodes, top).value && q != top {
        var f :| f in nodes && (ChildOf(f, top) || (ChildOf(f, Parent(f)) && ChildOf(Parent(f), top))) && q == top + f[|top|..];
        ListedDepth(top, f);
        assert q == f;
      }
      if DepthTwo(nodes, top, q) && q != top { DepthListed(nodes, top, q); }
    }
  }

  lemma DepthListed(nodes: Nodes, top: string, q: string)
    requires DepthTwo(nodes, top, q) && q != top
    ensures q in nodes && |top| <= |q| && q == top + q[|top|..]
    ensures ChildOf(q, top) || (ChildOf(q, Parent(q)) && ChildOf(Parent(q), top))
  {
    hide CleanName, ChildOf, Parent;
    if a :| CleanName(a) && q == top + "/" + a && q in nodes {
      OneDownListed(top, a);
    } else {
      var a, b :| CleanName(a) && CleanName(b) && q == top + "/" + a + "/" + b && q in nodes;
      TwoDownListed(top, a, b);
    }
  }

  lemma OneDownListed(top: string, a: string)
    requires CleanName(a)
    ensures var q := top + "/" + a; |top| <= |q| && q == top + q[|top|..] && ChildOf(q, top)
  {
    MakeChild(top, a);
    TailOf(top, "/" + a, top + "/" + a);
  }

  lemma TwoDownListed(top: string, a: string, b: string)
    requires CleanName(a) && CleanName(b)
    ensures var q := top + "/" + a + "/" + b; |top| <= |q| && q == top + q[|top|..] && ChildOf(q, Parent(q)) && ChildOf(Parent(q), top)
  {
    hide CleanName, ChildOf, Parent;
    MakeChild(top, a);
    MakeChild(top + "/" + a, b);
    ChildTail(top + "/" + a + "/" + b, top + "/" + a, top);
  }

  lemma ChildTail(q: string, d: string, top: string)
    requires ChildOf(q, d) && ChildOf(d, top)
    ensures |top| <= |q| && q == top + q[|top|..]
  {
    BelowTransitive(q, d, top);
  }

  lemma TailOf(top: string, rest: string, q: string)
    requires q == top + rest
    ensures |top| <= |q| && q == top + q[|top|..]
  {
  }

  lemma ListedDepth(top: string, f: string)
    requires ChildOf(f, top) || (ChildOf(f, Parent(f)) && ChildOf(Parent(f), top))
    ensures f == top + f[|top|..]
    ensures (exists a :: CleanName(a) && f == top + "/" + a) ||
            (exists a, b :: CleanName(a) && CleanName(b) && f == top + "/" + a + "/" + b)
  {
    if ChildOf(f, top) {
      ChildSplit(f, top);
    } else {
      ChildSplit(f, Parent(f));
      ChildSplit(Parent(f), top);
    }
  }

  ghost predicate NoUnexpected(nodes: Nodes, subroot: string, entries: seq<Entry>, links: map<string, string>)
    requires Found(nodes, subroot).Some?
  {
    forall p :: p in Found(nodes, subroot).value ==> Listed(entries, p) || p in links
  }

  method CheckNoUnexpected(nodes: Nodes, subroot: string, entries: seq<Entry>, links: map<string, string>)
    returns (r: Result<bool>)
    ensures r.Ok? <==> Found(nodes, subroot).Some?
    ensures r.Ok? ==> (r.value <==> NoUnexpected(nodes, subroot, entries, links))
  {
    var pathSet: set<string> := {};
    for i := 0 to |entries|
      invariant forall p :: p in pathSet <==> Listed(entries[..i], p)
    {
      ListedOneMore(entries, i);
      pathSet := pathSet + {entries[i].path};
    }
    assert entries[..|entries|] == entries;
    var paths := Found(nodes, subroot);
    if paths.None? { return Err("failed to list"); }
    var ok := true;
    var todo := paths.value;
    while todo != {}
      invariant todo <= paths.value
      invariant ok <==> forall p :: p in paths.value - todo ==> Listed(entries, p) || p in links
      decreases todo
    {
      var p :| p in todo;
      todo := todo - {p};
      if p in pathSet || p in links { continue; }
      ok := false;
    }
    return Ok(ok);
  }

  lemma ListedOneMore(entries: seq<Entry>, i: nat)
    requires i < |entries|
    ensures forall p :: Listed(entries[..i + 1], p) <==> Listed(entries[..i], p) || p == entries[i].path
  {
    Last(entries, i);
    forall p ensures Listed(entries[..i + 1], p) <==> Listed(entries[..i], p) || p == entries[i].path {
      if Listed(entries[..i], p) {
        var k :| 0 <= k < i && entries[..i][k].path == p;
        assert entries[..i + 1][k].path == p;
      }
      if p == entries[i].path { assert entries[..i + 1][i].path == p; }
      if Listed(entries[..i + 1], p) && p != entries[i].path {
        var k :| 0 <= k < i + 1 && entries[..i + 1][k].path == p;
        assert entries[..i][k].path == p;
      }
    }
  }

  /** The reason why a link fails its check; empty if it passes. */
  function CheckSymlink(nodes: Nodes, dest: string, path: string): string {
    match Locate(nodes, path)
    case None => "no such file or directory"
    case Some(p) =>
      if p !in nodes then "no such file or directory"
      else
        match nodes[p]
        case Link(actual) => if actual != dest then "got " + actual else ""
        case _ => "not a symlink"
  }

  lemma CheckSymlinkIff(nodes: Nodes, dest: string, path: string)
    ensures CheckSymlink(nodes, dest, path) == "" <==> IsDestSymlink(nodes, dest, path)
  {
  }

  ghost predicate LinksPass(nodes: Nodes, entries: seq<Entry>) {
    forall i :: 0 <= i < |entries| && entries[i].LinkEntry? ==> IsDestSymlink(nodes, entries[i].dest, entries[i].path)
  }

  ghost predicate ExplicitPass(nodes: Nodes, links: map<string, string>) {
    forall p :: p in links ==> IsDestSymlink(nodes, links[p], p)
  }

  method CheckSymlinks(nodes: Nodes, entries: seq<Entry>) returns (ok: bool)
    ensures ok <==> LinksPass(nodes, entries)
  {
    ok := true;
    for i := 0 to |entries|
      invariant ok <==> LinksPass(nodes, entries[..i])
    {
      Last(entries, i);
      assert forall k :: 0 <= k < i ==> entries[..i + 1][k] == entries[..i][k];
      var e := entries[i];
      if e.DirEntry? { continue; }
      var reason := CheckSymlink(nodes, e.dest, e.path);
      if reason == "" { continue; }
      ok := false;
    }
    assert entries[..|entries|] == entries;
  }

  method CheckExplicitSymlinks(nodes: Nodes, links: map<string, string>) returns (ok: bool)
    ensures ok <==> ExplicitPass(nodes, links)
  {
    ok := true;
    var todo := links.Keys;
    while todo != {}
      invariant todo <= links.Keys
      invariant ok <==> forall p :: p in links.Keys - todo ==> IsDestSymlink(nodes, links[p], p)
      decreases todo
    {
      var p :| p in todo;
      todo := todo - {p};
      CheckSymlinkIff(nodes, links[p], p);
      if CheckSymlink(nodes, links[p], p) != "" { ok := false; }
    }
  }

  ghost predicate ValidEntries(entries: seq<Entry>) {
    forall i :: 0 <= i < |entries| && entries[i].DirEntry? ==> entries[i].acl.Valid()
  }

  /** getfacl succeeds and prints what is expected up to unrelated named groups. */
  predicate EntryAclPasses(t: Tree, e: Entry)
    requires e.DirEntry? ==> e.acl.Valid()
  {
    e.DirEntry? ==>
      var d := Resolve(t.nodes, e.path);
      d.Some? && d.value in t.nodes && AclPasses(e.path, AclAt(t.acls, d.value), e.acl)
  }

  ghost predicate AclsPass(t: Tree, entries: seq<Entry>)
    requires ValidEntries(entries)
  {
    forall i :: 0 <= i < |entries| ==> EntryAclPasses(t, entries[i])
  }

  /** The path leads nowhere, or to the end of a dangling link. */
  predicate Missing(nodes: Nodes, p: string) {
    var d := Resolve(nodes, p);
    d.None? || d.value !in nodes
  }

  lemma MissingFails(t: Tree, entries: seq<Entry>)
    requires ValidEntries(entries)
    ensures forall i :: 0 <= i < |entries| && entries[i].DirEntry? && Missing(t.nodes, entries[i].path) ==> !AclsPass(t, entries)
  {
    hide AclPasses, Resolve;
  }

  lemma ListingMeans(nodes: Nodes, top: string, entries: seq<Entry>, links: map<string, string>)
    requires top != ""
    ensures WellFormed(nodes) && IsDir(nodes, top) ==>
              && Found(nodes, top).Some?
              && (NoUnexpected(nodes, top, entries, links) <==>
                  forall q :: DepthTwo(nodes, top, q) ==> Listed(entries, q) || q in links)
  {
    hide Found, WellFormed, DepthTwo, Listed;
    if WellFormed(nodes) && IsDir(nodes, top) { FoundMeans(nodes, top); }
  }

  method CheckACLs(t: Tree, entries: seq<Entry>) returns (ok: bool)
    requires ValidEntries(entries)
    ensures ok <==> AclsPass(t, entries)
  {
    hide AclPasses, GetfaclText, KeptLines;
    ok := true;
    for i := 0 to |entries|
      invariant ok <==> forall k :: 0 <= k < i ==> EntryAclPasses(t, entries[k])
    {
      var pass := CheckACL(t, entries[i]);
      if !pass { ok := false; }
    }
  }

  method CheckACL(t: Tree, e: Entry) returns (ok: bool)
    requires e.DirEntry? ==> e.acl.Valid()
    ensures ok <==> EntryAclPasses(t, e)
  {
    hide GetfaclText, KeptLines;
    if e.LinkEntry? { return true; }
    var d := Resolve(t.nodes, e.path);
    if d.None? || d.value !in t.nodes { return false; }
    var facl := RejectOtherNamedGroupEntries(GetfaclText(e.path, AclAt(t.acls, d.value)), e.acl.NamedGids());
    var expected := "# file: " + e.path + "\n" + e.acl.FaclString();
    ok := facl == expected;
  }

  lemma {:induction false} ServiceEntriesValid(root: string, services: seq<Service>)
    requires forall i :: 0 <= i < |services| ==> services[i].access != Unspecified
    ensures ValidEntries(ServiceDirs(root, services))
  {
    if services != [] { ServiceEntriesValid(root, services[..|services| - 1]); }
  }

  lemma {:induction false} SouEntriesValid(root: string, s: Service, ous: seq<OrgUnit>, filter: Filter)
    ensures ValidEntries(SouDirs(root, s, ous, filter))
  {
    if ous != [] { SouEntriesValid(root, s, ous[..|ous| - 1], filter); }
  }

  lemma {:induction false} AllSouEntriesValid(root: string, services: seq<Service>, ous: seq<OrgUnit>, filter: Filter)
    ensures ValidEntries(AllSouDirs(root, services, ous, filter))
  {
    if services != [] {
      AllSouEntriesValid(root, services[..|services| - 1], ous, filter);
      SouEntriesValid(root, services[|services| - 1], ous, filter);
    }
  }

  lemma {:induction false} OrgUnitEntriesValid(root: string, ous: seq<OrgUnit>)
    ensures ValidEntries(OrgUnitDirs(root, ous))
  {
    if ous != [] { OrgUnitEntriesValid(root, ous[..|ous| - 1]); }
  }

  lemma {:induction false} OuLinksValid(root: string, serviceDir: string, ou: OrgUnit, services: seq<Service>, filter: Filter)
    ensures ValidEntries(OuLinks(root, serviceDir, ou, services, filter))
  {
    if services != [] { OuLinksValid(root, serviceDir, ou, services[..|services| - 1], filter); }
  }

  lemma {:induction false} AllOuLinksValid(root: string, serviceDir: string, ous: seq<OrgUnit>, services: seq<Service>, filter: Filter)
    ensures ValidEntries(AllOuLinks(root, serviceDir, ous, services, filter))
  {
    if ous != [] {
      AllOuLinksValid(root, serviceDir, ous[..|ous| - 1], services, filter);
      OuLinksValid(root, serviceDir, ous[|ous| - 1], services, filter);
    }
  }

  lemma {:induction false} OuSubdirsValid(root: string, ou: OrgUnit, subdirs: seq<DirWithPolicy>)
    ensures ValidEntries(OuSubdirs(root, ou, subdirs))
  {
    if subdirs != [] { OuSubdirsValid(root, ou, subdirs[..|subdirs| - 1]); }
  }

  lemma {:induction false} AllSubdirsValid(root: string, ous: seq<OrgUnit>)
    ensures ValidEntries(AllSubdirs(root, ous))
  {
    if ous != [] {
      AllSubdirsValid(root, ous[..|ous| - 1]);
      OuSubdirsValid(root, ous[|ous| - 1], ous[|ous| - 1].subdirs);
    }
  }

  lemma EntriesValid(cfg: Config, services: seq<Service>, ous: seq<OrgUnit>, filter: Filter)
    requires forall i :: 0 <= i < |services| ==> services[i].access != Unspecified
    ensures ValidEntries(Entries(cfg, services, ous, filter))
  {
    ServiceEntriesValid(cfg.ServiceRoot(), services);
    AllSouEntriesValid(cfg.ServiceRoot(), services, ous, filter);
    OrgUnitEntriesValid(cfg.OrgUnitRoot(), ous);
    AllOuLinksValid(cfg.OrgUnitRoot(), cfg.serviceDir, ous, services, filter);
    AllSubdirsValid(cfg.OrgUnitRoot(), ous);
  }

  /** The five checks; an error if one of the two subtrees cannot be listed. */
  method CheckPermissions(t: Tree, cfg: Config, services: seq<Service>, ous: seq<OrgUnit>, filter: Filter)
    returns (r: Result<seq<string>>)
    requires forall i :: 0 <= i < |services| ==> services[i].access != Unspecified
    ensures ValidEntries(Entries(cfg, services, ous, filter))
    ensures r.Ok? <==> Found(t.nodes, cfg.ServiceRoot()).Some? && Found(t.nodes, cfg.OrgUnitRoot()).Some?
    ensures r.Ok? ==>
              var entries := Entries(cfg, services, ous, filter);
              var links := ExplicitMap(cfg.rootdir, cfg.symlinks);
              && ("no-unexpected-srv" !in r.value <==> NoUnexpected(t.nodes, cfg.ServiceRoot(), entries, links))
              && ("no-unexpected-ou" !in r.value <==> NoUnexpected(t.nodes, cfg.OrgUnitRoot(), entries, links))
              && ("symlinks" !in r.value <==> LinksPass(t.nodes, entries))
              && ("explicit-symlinks" !in r.value <==> ExplicitPass(t.nodes, links))
              && ("acls" !in r.value <==> AclsPass(t, entries))
    ensures r.Ok? && WellFormed(t.nodes) && IsDir(t.nodes, cfg.ServiceRoot()) ==>
              ("no-unexpected-srv" !in r.value <==>
               forall q :: DepthTwo(t.nodes, cfg.ServiceRoot(), q) ==>
                 Listed(Entries(cfg, services, ous, filter), q) || q in ExplicitMap(cfg.rootdir, cfg.symlinks))
    ensures r.Ok? && WellFormed(t.nodes) && IsDir(t.nodes, cfg.OrgUnitRoot()) ==>
              ("no-unexpected-ou" !in r.value <==>
               forall q :: DepthTwo(t.nodes, cfg.OrgUnitRoot(), q) ==>
                 Listed(Entries(cfg, services, ous, filter), q) || q in ExplicitMap(cfg.rootdir, cfg.symlinks))
    ensures r.Ok? ==> forall e :: e in Entries(cfg, services, ous, filter) && e.DirEntry? && Missing(t.nodes, e.path) ==> "acls" in r.value
    ensures WellFormed(t.nodes) && IsDir(t.nodes, cfg.ServiceRoot()) && IsDir(t.nodes, cfg.OrgUnitRoot()) ==> r.Ok?
    ensures r.Ok? ==> forall f :: f in r.value ==>
              f in ["no-unexpected-srv", "no-unexpected-ou", "symlinks", "explicit-symlinks", "acls"]
  {
    hide NoUnexpected, LinksPass, ExplicitPass, AclsPass, Found;
    EntriesValid(cfg, services, ous, filter);
    var entries :=
      [DirEntry(cfg.rootdir, Toplevel), DirEntry(cfg.ServiceRoot(), Toplevel), DirEntry(cfg.OrgUnitRoot(), Toplevel)];
    var list := ServiceDirsList(cfg.ServiceRoot(), services);
    entries := entries + list;
    list := ServiceOrgUnitDirsList(cfg.ServiceRoot(), services, ous, filter);
    entries := entries + list;
    list := OrgUnitDirsList(cfg.OrgUnitRoot(), ous);
    entries := entries + list;
    list := OrgUnitServiceLinksList(cfg.OrgUnitRoot(), cfg.serviceDir, ous, services, filter);
    entries := entries + list;
    list := OrgUnitSubdirsList(cfg.OrgUnitRoot(), ous);
    entries := entries + list;
    var links: map<string, string> := map[];
    for i := 0 to |cfg.symlinks|
      invariant links == ExplicitMap(cfg.rootdir, cfg.symlinks[..i])
    {
      Last(cfg.symlinks, i);
      links := links[cfg.rootdir + "/" + cfg.symlinks[i].path := cfg.symlinks[i].target];
    }
    assert cfg.symlinks[..|cfg.symlinks|] == cfg.symlinks;
    r := RunChecks(t, cfg, entries, links);
  }

  method RunChecks(t: Tree, cfg: Config, entries: seq<Entry>, links: map<string, string>) returns (r: Result<seq<string>>)
    requires ValidEntries(entries)
    ensures r.Ok? <==> Found(t.nodes, cfg.ServiceRoot()).Some? && Found(t.nodes, cfg.OrgUnitRoot()).Some?
    ensures r.Ok? ==>
              && ("no-unexpected-srv" !in r.value <==> NoUnexpected(t.nodes, cfg.ServiceRoot(), entries, links))
              && ("no-unexpected-ou" !in r.value <==> NoUnexpected(t.nodes, cfg.OrgUnitRoot(), entries, links))
              && ("symlinks" !in r.value <==> LinksPass(t.nodes, entries))
              && ("explicit-symlinks" !in r.value <==> ExplicitPass(t.nodes, links))
              && ("acls" !in r.value <==> AclsPass(t, entries))
    ensures r.Ok? && WellFormed(t.nodes) && IsDir(t.nodes, cfg.ServiceRoot()) ==>
              ("no-unexpected-srv" !in r.value <==>
               forall q :: DepthTwo(t.nodes, cfg.ServiceRoot(), q) ==> Listed(entries, q) || q in links)
    ensures r.Ok? && WellFormed(t.nodes) && IsDir(t.nodes, cfg.OrgUnitRoot()) ==>
              ("no-unexpected-ou" !in r.value <==>
               forall q :: DepthTwo(t.nodes, cfg.OrgUnitRoot(), q) ==> Listed(entries, q) || q in links)
    ensures r.Ok? ==> forall e :: e in entries && e.DirEntry? && Missing(t.nodes, e.path) ==> "acls" in r.value
    ensures WellFormed(t.nodes) && IsDir(t.nodes, cfg.ServiceRoot()) && IsDir(t.nodes, cfg.OrgUnitRoot()) ==> r.Ok?
    ensures r.Ok? ==> forall f :: f in r.value ==>
              f in ["no-unexpected-srv", "no-unexpected-ou", "symlinks", "explicit-symlinks", "acls"]
  {
    hide NoUnexpected, LinksPass, ExplicitPass, AclsPass, Found, Failures, Listed, DepthTwo;
    ListingMeans(t.nodes, cfg.ServiceRoot(), entries, links);
    ListingMeans(t.nodes, cfg.OrgUnitRoot(), entries, links);
    MissingFails(t, entries);
    var srv := CheckNoUnexpected(t.nodes, cfg.ServiceRoot(), entries, links);
    if srv.Err? { return Err(srv.error); }
    var org := CheckNoUnexpected(t.nodes, cfg.OrgUnitRoot(), entries, links);
    if org.Err? { return Err(org.error); }
    var symlinks := CheckSymlinks(t.nodes, entries);
    var explicit := CheckExplicitSymlinks(t.nodes, links);
    var acls := CheckACLs(t, entries);
    FailuresTell(srv.value, org.value, symlinks, explicit, acls);
    return Ok(Failures(srv.value, org.value, symlinks, explicit, acls));
  }

  /** The list of failures, in the order of the checks. */
  function Failures(srv: bool, org: bool, symlinks: bool, explicit: bool, acls: bool): seq<string> {
    Reported(srv, "no-unexpected-srv") + Reported(org, "no-unexpected-ou") + Reported(symlinks, "symlinks") +
    Reported(explicit, "explicit-symlinks") + Reported(acls, "acls")
  }

  function Reported(ok: bool, name: string): seq<string> {
    if ok then [] else [name]
  }

  lemma FailuresTell(srv: bool, org: bool, symlinks: bool, explicit: bool, acls: bool)
    ensures var f := Failures(srv, org, symlinks, explicit, acls);
            && ("no-unexpected-srv" !in f <==> srv) && ("no-unexpected-ou" !in f <==> org)
            && ("symlinks" !in f <==> symlinks) && ("explicit-symlinks" !in f <==> explicit) && ("acls" !in f <==> acls)
            && forall x :: x in f ==> x in ["no-unexpected-srv", "no-unexpected-ou", "symlinks", "explicit-symlinks", "acls"]
  {
    NamesDiffer();
    var l := ["no-unexpected-srv", "no-unexpected-ou", "symlinks", "explicit-symlinks", "acls"];
    FiveNames(l[0], l[1], l[2], l[3], l[4], srv, org, symlinks, explicit, acls);
  }

  lemma FiveNames(a: string, b: string, c: string, d: string, e: string, v: bool, w: bool, x: bool, y: bool, z: bool)
    requires NoDuplicates([a, b, c, d, e])
    ensures var f := Reported(v, a) + Reported(w, b) + Reported(x, c) + Reported(y, d) + Reported(z, e);
            && (a !in f <==> v) && (b !in f <==> w) && (c !in f <==> x) && (d !in f <==> y) && (e !in f <==> z)
            && forall n :: n in f ==> n in [a, b, c, d, e]
  {
    var l := [a, b, c, d, e];
    assert l[0] != l[1] && l[0] != l[2] && l[0] != l[3] && l[0] != l[4] && l[1] != l[2] && l[1] != l[3];
    assert l[1] != l[4] && l[2] != l[3] && l[2] != l[4] && l[3] != l[4];
    ReportedOnly(v, a);
    ReportedOnly(w, b);
    ReportedOnly(x, c);
    ReportedOnly(y, d);
    ReportedOnly(z, e);
  }

  lemma ReportedOnly(ok: bool, name: string)
    ensures forall m :: m in Reported(ok, name) <==> !ok && m == name
  {
  }

  lemma NamesDiffer()
    ensures NoDuplicates(["no-unexpected-srv", "no-unexpected-ou", "symlinks", "explicit-symlinks", "acls"])
  {
    var l := ["no-unexpected-srv", "no-unexpected-ou", "symlinks", "explicit-symlinks", "acls"];
    assert |l[0]| == 17 && |l[1]| == 16 && |l[2]| == 8 && |l[3]| == 17 && |l[4]| == 4;
    assert l[0][0] == 'n' && l[3][0] == 'e';
  }
}
