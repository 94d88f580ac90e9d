/** An apply run followed by the check of the ACLs, from any tree in which the managed directories
    are reached through no link. */
module AppliedCheck {
  import opened Strings
  import opened Paths
  import opened Sharing
  import opened FileSystem
  import opened PosixAcl
  import opened DirScripts
  import opened Organization
  import opened FsApply
  import opened ApplySteps
  import opened FsckAcl
  import opened ScriptsMeetCheck
  import opened FsCheck
  import opened ApplySymlinks
  import opened ApplyLinks
  import opened ServiceCleanUp
  import opened AppliedAcls
  import opened CheckMeaning
  import opened AclMeaning

  /** A run executes the script `s` on the directory `p`. */
  ghost predicate Scripted(cfg: Config, services: seq<Service>, ous: seq<OrgUnit>, filter: Filter, p: string, s: DirScript) {
    || ((p == cfg.ServiceRoot() || p == cfg.OrgUnitRoot()) && s == ToplevelSh)
    || ServiceScripted(cfg.ServiceRoot(), services, p, s)
    || PairScripted(cfg.ServiceRoot(), services, ous, filter, p, s)
    || OuScripted(cfg.OrgUnitRoot(), ous, p, s)
    || SubdirScripted(cfg.OrgUnitRoot(), ous, p, s)
  }

  ghost predicate ServiceScripted(root: string, services: seq<Service>, p: string, s: DirScript) {
    exists i :: 0 <= i < |services| && p == root + "/" + services[i].name && s == ServiceScript(services[i])
  }

  ghost predicate PairScripted(root: string, services: seq<Service>, ous: seq<OrgUnit>, filter: Filter, p: string, s: DirScript) {
    exists i, j :: 0 <= i < |services| && 0 <= j < |ous| && filter(services[i], ous[j])
      && p == root + "/" + services[i].name + "/" + ous[j].name && s == SouJob("", services[i], ous[j]).script
  }

  ghost predicate OuScripted(root: string, ous: seq<OrgUnit>, p: string, s: DirScript) {
    exists j :: 0 <= j < |ous| && p == root + "/" + ous[j].name && s == OrgUnitSh(ous[j].orgUnitGroup.gid)
  }

  ghost predicate SubdirScripted(root: string, ous: seq<OrgUnit>, p: string, s: DirScript) {
    exists j, k :: 0 <= j < |ous| && 0 <= k < |ous[j].subdirs|
      && p == root + "/" + ous[j].name + "/" + ous[j].subdirs[k].name && s == SubdirScript(ous[j].orgUnitGroup.gid, ous[j].subdirs[k].policy)
  }

  lemma ScriptedMade(t: Tree, r: Tree, cfg: Config, services: seq<Service>, ous: seq<OrgUnit>, filter: Filter, p: string, s: DirScript)
    requires ServiceTreeMade(t, r, cfg.ServiceRoot(), services, ous, filter) && OuTreeMade(t, r, cfg.OrgUnitRoot(), ous)
    requires Scripted(cfg, services, ous, filter, p, s)
    ensures AclMade(t, r, p, s)
  {
    hide AclMade, ServiceScript, SubdirScript;
  }

  lemma ManagedScripted(cfg: Config, services: seq<Service>, ous: seq<OrgUnit>, filter: Filter, p: string)
    ensures Managed(cfg, services, ous, filter, p) <==> exists s :: Scripted(cfg, services, ous, filter, p, s)
  {
    hide ServiceScript, SubdirScript, Scripted;
    if Managed(cfg, services, ous, filter, p) { var s := SomeScript(cfg, services, ous, filter, p); }
    if s :| Scripted(cfg, services, ous, filter, p, s) { ScriptedManaged(cfg, services, ous, filter, p, s); }
  }

  lemma ScriptedManaged(cfg: Config, services: seq<Service>, ous: seq<OrgUnit>, filter: Filter, p: string, s: DirScript)
    requires Scripted(cfg, services, ous, filter, p, s)
    ensures Managed(cfg, services, ous, filter, p)
  {
    hide ServiceScript, SubdirScript;
  }

  lemma SomeScript(cfg: Config, services: seq<Service>, ous: seq<OrgUnit>, filter: Filter, p: string) returns (s: DirScript)
    requires Managed(cfg, services, ous, filter, p)
    ensures Scripted(cfg, services, ous, filter, p, s)
  {
    hide ServiceScript, SubdirScript;
    if p == cfg.ServiceRoot() || p == cfg.OrgUnitRoot() {
      s := ToplevelSh;
    } else if i :| 0 <= i < |services| && p == cfg.ServiceRoot() + "/" + services[i].name {
      s := ServiceScript(services[i]);
      assert ServiceScripted(cfg.ServiceRoot(), services, p, s);
    } else if i, j :| 0 <= i < |services| && 0 <= j < |ous| && filter(services[i], ous[j])
                      && p == cfg.ServiceRoot() + "/" + services[i].name + "/" + ous[j].name {
      s := SouJob("", services[i], ous[j]).script;
      assert PairScripted(cfg.ServiceRoot(), services, ous, filter, p, s);
    } else if j :| 0 <= j < |ous| && p == cfg.OrgUnitRoot() + "/" + ous[j].name {
      s := OrgUnitSh(ous[j].orgUnitGroup.gid);
      assert OuScripted(cfg.OrgUnitRoot(), ous, p, s);
    } else {
      var j, k :| 0 <= j < |ous| && 0 <= k < |ous[j].subdirs| && p == cfg.OrgUnitRoot() + "/" + ous[j].name + "/" + ous[j].subdirs[k].name;
      s := SubdirScript(ous[j].orgUnitGroup.gid, ous[j].subdirs[k].policy);
      assert SubdirScripted(cfg.OrgUnitRoot(), ous, p, s);
    }
  }

  lemma ServiceSame(root: string, services: seq<Service>, p: string, a: ACL)
    requires forall i :: 0 <= i < |services| ==> services[i].access != Unspecified
    ensures ServiceChecked(root, services, p, a) <==> exists s :: ServiceScripted(root, services, p, s) && a == CheckOf(s)
  {
    if i :| 0 <= i < |services| && p == root + "/" + services[i].name && a == CheckOf(ServiceScript(services[i])) {
      assert ServiceScripted(root, services, p, ServiceScript(services[i]));
    }
  }

  lemma PairSame(root: string, services: seq<Service>, ous: seq<OrgUnit>, filter: Filter, p: string, a: ACL)
    ensures PairChecked(root, services, ous, filter, p, a) <==> exists s :: PairScripted(root, services, ous, filter, p, s) && a == CheckOf(s)
  {
    hide PairScripted, PairChecked;
    if PairChecked(root, services, ous, filter, p, a) { var s := PairThere(root, services, ous, filter, p, a); }
    if s :| PairScripted(root, services, ous, filter, p, s) && a == CheckOf(s) { PairBack(root, services, ous, filter, p, s); }
  }

  lemma PairThere(root: string, services: seq<Service>, ous: seq<OrgUnit>, filter: Filter, p: string, a: ACL) returns (s: DirScript)
    requires PairChecked(root, services, ous, filter, p, a)
    ensures PairScripted(root, services, ous, filter, p, s) && a == CheckOf(s)
  {
    var i, j :| 0 <= i < |services| && 0 <= j < |ous| && filter(services[i], ous[j]) && OnePairChecked(root, services[i], ous[j], p, a);
    s := SouJob("", services[i], ous[j]).script;
  }

  lemma PairBack(root: string, services: seq<Service>, ous: seq<OrgUnit>, filter: Filter, p: string, s: DirScript)
    requires PairScripted(root, services, ous, filter, p, s)
    ensures PairChecked(root, services, ous, filter, p, CheckOf(s))
  {
    var i, j :| 0 <= i < |services| && 0 <= j < |ous| && filter(services[i], ous[j])
      && p == root + "/" + services[i].name + "/" + ous[j].name && s == SouJob("", services[i], ous[j]).script;
    assert OnePairChecked(root, services[i], ous[j], p, CheckOf(s));
  }

  lemma OuSame(root: string, ous: seq<OrgUnit>, p: string, a: ACL)
    ensures OuChecked(root, ous, p, a) <==> exists s :: OuScripted(root, ous, p, s) && a == CheckOf(s)
  {
    if j :| 0 <= j < |ous| && p == root + "/" + ous[j].name && a == OrgUnitACL(0, ous[j].orgUnitGroup.gid) {
      assert OuScripted(root, ous, p, OrgUnitSh(ous[j].orgUnitGroup.gid));
    }
  }

  lemma SubdirSame(root: string, ous: seq<OrgUnit>, p: string, a: ACL)
    ensures SubdirChecked(root, ous, p, a) <==> exists s :: SubdirScripted(root, ous, p, s) && a == CheckOf(s)
  {
    hide SubdirScripted, SubdirChecked;
    if SubdirChecked(root, ous, p, a) { var s := SubdirThere(root, ous, p, a); }
    if s :| SubdirScripted(root, ous, p, s) && a == CheckOf(s) { SubdirBack(root, ous, p, s); }
  }

  lemma SubdirThere(root: string, ous: seq<OrgUnit>, p: string, a: ACL) returns (s: DirScript)
    requires SubdirChecked(root, ous, p, a)
    ensures SubdirScripted(root, ous, p, s) && a == CheckOf(s)
  {
    var j, k :| 0 <= j < |ous| && 0 <= k < |ous[j].subdirs| && OneSubdirChecked(root, ous[j], ous[j].subdirs[k], p, a);
    s := SubdirScript(ous[j].orgUnitGroup.gid, ous[j].subdirs[k].policy);
  }

  lemma SubdirBack(root: string, ous: seq<OrgUnit>, p: string, s: DirScript)
    requires SubdirScripted(root, ous, p, s)
    ensures SubdirChecked(root, ous, p, CheckOf(s))
  {
    var j, k :| 0 <= j < |ous| && 0 <= k < |ous[j].subdirs|
      && p == root + "/" + ous[j].name + "/" + ous[j].subdirs[k].name && s == SubdirScript(ous[j].orgUnitGroup.gid, ous[j].subdirs[k].policy);
    assert OneSubdirChecked(root, ous[j], ous[j].subdirs[k], p, CheckOf(s));
  }

  /** The checker wants at each of these directories what belongs to the script. */
  lemma CheckedScripted(cfg: Config, services: seq<Service>, ous: seq<OrgUnit>, filter: Filter, p: string, a: ACL)
    requires forall i :: 0 <= i < |services| ==> services[i].access != Unspecified
    ensures Checked(cfg, services, ous, filter, p, a) <==>
            (p == cfg.rootdir && a == CheckOf(ToplevelSh)) || exists s :: Scripted(cfg, services, ous, filter, p, s) && a == CheckOf(s)
  {
    hide ServiceScripted, PairScripted, OuScripted, SubdirScripted, ServiceChecked, PairChecked, OuChecked, SubdirChecked;
    ServiceSame(cfg.ServiceRoot(), services, p, a);
    PairSame(cfg.ServiceRoot(), services, ous, filter, p, a);
    OuSame(cfg.OrgUnitRoot(), ous, p, a);
    SubdirSame(cfg.OrgUnitRoot(), ous, p, a);
    if Checked(cfg, services, ous, filter, p, a) && !(p == cfg.rootdir && a == CheckOf(ToplevelSh)) {
      if (p == cfg.ServiceRoot() || p == cfg.OrgUnitRoot()) && a == CheckOf(ToplevelSh) {
        assert Scripted(cfg, services, ous, filter, p, ToplevelSh);
      }
    }
  }

  lemma CheckValid(s: DirScript)
    ensures CheckOf(s).Valid()
  {
  }

  /** All ACLs are valid, the gids of every script differ where it matters, and paths print on
      one line. */
  ghost predicate Usual(t: Tree, cfg: Config, services: seq<Service>, ous: seq<OrgUnit>, filter: Filter) {
    && (forall q :: AclAt(t.acls, q).Valid())
    && '\n' !in cfg.rootdir
    && forall p, s :: Scripted(cfg, services, ous, filter, p, s) ==> DistinctGids(s) && '\n' !in p
  }

  lemma ParentShorter(p: string)
    requires ChildOf(p, Parent(p))
    ensures |Parent(p)| < |p|
  {
    ChildSplit(p, Parent(p));
  }

  lemma NewHasParent(t: Tree, r: Tree, p: string)
    requires WellFormed(r.nodes) && IsDir(r.nodes, p) && p != ""
    ensures |Parent(p)| < |p|
  {
    ParentThere(r.nodes, p);
    ParentShorter(p);
  }

  /** A run keeps ACLs valid. */
  lemma {:induction false} StaysValid(t: Tree, r: Tree, cfg: Config, services: seq<Service>, ous: seq<OrgUnit>, filter: Filter, q: string)
    requires WellFormed(t.nodes) && WellFormed(r.nodes) && Usual(t, cfg, services, ous, filter)
    requires ServiceTreeMade(t, r, cfg.ServiceRoot(), services, ous, filter) && OuTreeMade(t, r, cfg.OrgUnitRoot(), ous)
    requires forall p :: !Managed(cfg, services, ous, filter, p) ==> AclAt(r.acls, p) == AclAt(t.acls, p)
    ensures AclAt(r.acls, q).Valid()
    decreases |q|
  {
    hide WellFormed, Managed, Scripted, ServiceTreeMade, OuTreeMade, AfterScript, DirAcl.Valid, Inherit;
    if Managed(cfg, services, ous, filter, q) {
      ManagedScripted(cfg, services, ous, filter, q);
      var s :| Scripted(cfg, services, ous, filter, q, s);
      ScriptedMade(t, r, cfg, services, ous, filter, q, s);
      if q !in t.nodes {
        RootIn(t.nodes, q);
        NewHasParent(t, r, q);
        StaysValid(t, r, cfg, services, ous, filter, Parent(q));
        InheritValid(AclAt(r.acls, Parent(q)), RWX, R_X, R_X);
        ScriptIdempotent(s, Inherit(AclAt(r.acls, Parent(q)), RWX, R_X, R_X));
      } else {
        ScriptIdempotent(s, AclAt(t.acls, q));
      }
    }
  }

  lemma RootIn(nodes: Nodes, q: string)
    requires WellFormed(nodes) && q !in nodes
    ensures q != ""
  {
  }

  lemma OneChecked(t: Tree, r: Tree, p: string, s: DirScript)
    requires WellFormed(r.nodes) && AclMade(t, r, p, s) && (forall q :: AclAt(t.acls, q).Valid()) && (forall q :: AclAt(r.acls, q).Valid())
    requires DistinctGids(s) && '\n' !in p
    ensures EntryAclPasses(r, DirEntry(p, CheckOf(s))) <==> Suits(s, StartAcl(t, r.acls, p))
  {
    hide WellFormed, AfterScript, DirAcl.Valid, Inherit, Suits, AclPasses, CheckOf, Resolve;
    ResolveDir(r.nodes, p);
    InheritValid(AclAt(r.acls, Parent(p)), RWX, R_X, R_X);
    ScriptMeetsCheck(p, s, StartAcl(t, r.acls, p));
  }

  lemma RootChecked(t: Tree, r: Tree, cfg: Config, services: seq<Service>, ous: seq<OrgUnit>, filter: Filter)
    requires WellFormed(r.nodes) && cfg.Valid() && IsDir(r.nodes, cfg.ServiceRoot()) && '\n' !in cfg.rootdir
    requires AclAt(r.acls, cfg.rootdir) == AclAt(t.acls, cfg.rootdir) && AclAt(t.acls, cfg.rootdir).Valid()
    ensures EntryAclPasses(r, DirEntry(cfg.rootdir, CheckOf(ToplevelSh))) <==> AsWanted(AclAt(t.acls, cfg.rootdir), SimpleACL(0, 0, RWX, R_X, R_X))
  {
    hide WellFormed, AclPasses, Resolve, AsWanted;
    MakeChild(cfg.rootdir, cfg.serviceDir);
    AncestorsAreDirs(r.nodes, cfg.ServiceRoot(), cfg.rootdir);
    ResolveDir(r.nodes, cfg.rootdir);
    PassesMean(cfg.rootdir, AclAt(t.acls, cfg.rootdir), CheckOf(ToplevelSh));
  }

  lemma RootNotManaged(cfg: Config, services: seq<Service>, ous: seq<OrgUnit>, filter: Filter)
    requires cfg.Valid()
    ensures !Managed(cfg, services, ous, filter, cfg.rootdir)
  {
    forall x: string ensures cfg.rootdir != cfg.ServiceRoot() + "/" + x && cfg.rootdir != cfg.OrgUnitRoot() + "/" + x {
      assert |cfg.ServiceRoot() + "/" + x| > |cfg.rootdir| && |cfg.OrgUnitRoot() + "/" + x| > |cfg.rootdir|;
    }
    forall x: string, y: string
      ensures cfg.rootdir != cfg.ServiceRoot() + "/" + x + "/" + y && cfg.rootdir != cfg.OrgUnitRoot() + "/" + x + "/" + y
    {
      assert |cfg.ServiceRoot() + "/" + x + "/" + y| > |cfg.rootdir| && |cfg.OrgUnitRoot() + "/" + x + "/" + y| > |cfg.rootdir|;
    }
  }

  ghost predicate AllSuit(t: Tree, r: Tree, cfg: Config, services: seq<Service>, ous: seq<OrgUnit>, filter: Filter) {
    forall p, s :: Scripted(cfg, services, ous, filter, p, s) ==> Suits(s, StartAcl(t, r.acls, p))
  }

  /** A run without error passes the check of the ACLs if and only if the root directory is as it
      should be and every other directory suited its script: as it was before the run or, if it
      is new, as its parent made it. */
  lemma AppliedAclsPassIff(t: Tree, cfg: Config, services: seq<Service>, ous: seq<OrgUnit>, filter: Filter)
    requires WellFormed(t.nodes) && OwnNames(cfg, services, ous) && NamesApart(services, ous, filter)
    requires PlainServiceTree(t.nodes, cfg.ServiceRoot(), services, ous, filter) && PlainOuTree(t.nodes, cfg.OrgUnitRoot(), ous)
    requires !Applied(t, cfg, services, ous, filter).err && Usual(t, cfg, services, ous, filter)
    ensures ValidEntries(FsCheck.Entries(cfg, services, ous, filter))
    ensures var r := Applied(t, cfg, services, ous, filter);
            AclsPass(r, FsCheck.Entries(cfg, services, ous, filter)) <==>
            AsWanted(AclAt(t.acls, cfg.rootdir), SimpleACL(0, 0, RWX, R_X, R_X)) && AllSuit(t, r, cfg, services, ous, filter)
  {
    hide WellFormed, NoLinks, Applied, CleanSubdirs, NamesApart, ServiceTreeMade, OuTreeMade, Managed, AclAt, FsCheck.Entries, EntryAclPasses, Suits,
         Scripted, AsWanted, CheckOf, DirAcl.Valid, StartAcl, AllSuit, AclsPass, AfterOuDirs, AfterLinks, ServicePart, PlainServiceTree, PlainOuTree;
    var r := Applied(t, cfg, services, ous, filter);
    EntriesValid(cfg, services, ous, filter);
    AclsMade(t, cfg, services, ous, filter);
    RunStages(t, cfg, services, ous, filter);
    forall q ensures AclAt(r.acls, q).Valid() {
      StaysValid(t, r, cfg, services, ous, filter, q);
    }
    RootNotManaged(cfg, services, ous, filter);
    AclMadeThere(t, r, cfg, services, ous, filter);
    RootChecked(t, r, cfg, services, ous, filter);
    forall p, s | Scripted(cfg, services, ous, filter, p, s)
      ensures CheckOf(s).Valid() && (EntryAclPasses(r, DirEntry(p, CheckOf(s))) <==> Suits(s, StartAcl(t, r.acls, p)))
    {
      CheckValid(s);
      ScriptedMade(t, r, cfg, services, ous, filter, p, s);
      OneChecked(t, r, p, s);
    }
    PassIff(t, r, cfg, services, ous, filter);
  }

  lemma AclMadeThere(t: Tree, r: Tree, cfg: Config, services: seq<Service>, ous: seq<OrgUnit>, filter: Filter)
    requires ServiceTreeMade(t, r, cfg.ServiceRoot(), services, ous, filter)
    ensures IsDir(r.nodes, cfg.ServiceRoot())
  {
    hide AfterScript, Inherit, AclAt, ServiceScript;
  }

  lemma PassIff(t: Tree, r: Tree, cfg: Config, services: seq<Service>, ous: seq<OrgUnit>, filter: Filter)
    requires ValidEntries(FsCheck.Entries(cfg, services, ous, filter)) && forall i :: 0 <= i < |services| ==> services[i].access != Unspecified
    requires EntryAclPasses(r, DirEntry(cfg.rootdir, CheckOf(ToplevelSh))) <==> AsWanted(AclAt(t.acls, cfg.rootdir), SimpleACL(0, 0, RWX, R_X, R_X))
    requires forall p, s :: Scripted(cfg, services, ous, filter, p, s) ==>
               CheckOf(s).Valid() && (EntryAclPasses(r, DirEntry(p, CheckOf(s))) <==> Suits(s, StartAcl(t, r.acls, p)))
    ensures AclsPass(r, FsCheck.Entries(cfg, services, ous, filter)) <==>
            AsWanted(AclAt(t.acls, cfg.rootdir), SimpleACL(0, 0, RWX, R_X, R_X)) && AllSuit(t, r, cfg, services, ous, filter)
  {
    hide FsCheck.Entries, EntryAclPasses, Suits, Scripted, AsWanted, AclAt, StartAcl, Checked, CheckOf;
    var entries := FsCheck.Entries(cfg, services, ous, filter);
    if AclsPass(r, entries) {
      EntryFor(r, cfg, services, ous, filter, cfg.rootdir, CheckOf(ToplevelSh));
      forall p, s | Scripted(cfg, services, ous, filter, p, s) ensures Suits(s, StartAcl(t, r.acls, p)) {
        EntryFor(r, cfg, services, ous, filter, p, CheckOf(s));
      }
    }
    if AsWanted(AclAt(t.acls, cfg.rootdir), SimpleACL(0, 0, RWX, R_X, R_X)) && AllSuit(t, r, cfg, services, ous, filter) {
      forall i | 0 <= i < |entries| ensures EntryAclPasses(r, entries[i]) {
        EntryScripted(t, r, cfg, services, ous, filter, entries[i]);
      }
    }
  }

  lemma EntryFor(r: Tree, cfg: Config, services: seq<Service>, ous: seq<OrgUnit>, filter: Filter, p: string, a: ACL)
    requires ValidEntries(FsCheck.Entries(cfg, services, ous, filter)) && forall i :: 0 <= i < |services| ==> services[i].access != Unspecified
    requires AclsPass(r, FsCheck.Entries(cfg, services, ous, filter))
    requires (p == cfg.rootdir && a == CheckOf(ToplevelSh)) || exists s :: Scripted(cfg, services, ous, filter, p, s) && a == CheckOf(s)
    ensures a.Valid() && EntryAclPasses(r, DirEntry(p, a))
  {
    hide FsCheck.Entries, EntryAclPasses, Scripted, Checked, CheckOf;
    CheckedScripted(cfg, services, ous, filter, p, a);
    EntriesAre(cfg, services, ous, filter, p, a);
    var entries := FsCheck.Entries(cfg, services, ous, filter);
    var i :| 0 <= i < |entries| && entries[i] == DirEntry(p, a);
  }

  lemma EntryScripted(t: Tree, r: Tree, cfg: Config, services: seq<Service>, ous: seq<OrgUnit>, filter: Filter, e: Entry)
    requires ValidEntries(FsCheck.Entries(cfg, services, ous, filter)) && forall i :: 0 <= i < |services| ==> services[i].access != Unspecified
    requires e in FsCheck.Entries(cfg, services, ous, filter) && EntryAclPasses(r, DirEntry(cfg.rootdir, CheckOf(ToplevelSh)))
    requires forall p, s :: Scripted(cfg, services, ous, filter, p, s) ==> CheckOf(s).Valid() && EntryAclPasses(r, DirEntry(p, CheckOf(s)))
    ensures (e.DirEntry? ==> e.acl.Valid()) && EntryAclPasses(r, e)
  {
    hide FsCheck.Entries, Scripted, Checked, CheckOf, AclPasses;
    if e.DirEntry? {
      EntriesAre(cfg, services, ous, filter, e.path, e.acl);
      CheckedScripted(cfg, services, ous, filter, e.path, e.acl);
    }
  }

  /** A new directory has the unrelated entries of its parent's default ACL, as access and as
      default entries, and no other unrelated ones. */
  lemma NewDirInherits(t: Tree, r: Tree, p: string, s: DirScript, e: (nat, Mode))
    requires AclMade(t, r, p, s) && p !in t.nodes && DistinctGids(s) && e.0 !in CheckOf(s).NamedGids()
    requires var parent := AclAt(r.acls, Parent(p)); parent.Valid() && parent.dflt.Some?
    ensures var parent, made := AclAt(r.acls, Parent(p)).dflt.value, AclAt(r.acls, p);
            && made.dflt.Some?
            && (e in made.access.groups <==> e in parent.groups) && (e in made.dflt.value.groups <==> e in parent.groups)
  {
    hide AfterScript, Parent, AclAt, CheckOf;
    var parent := AclAt(r.acls, Parent(p));
    InheritValid(parent, RWX, R_X, R_X);
    ScriptKeepsOtherEntries(s, Inherit(parent, RWX, R_X, R_X), e);
  }

  /** So a named user in the default ACL of the parent makes the check of a new directory fail. */
  lemma InheritedUserFails(t: Tree, r: Tree, p: string, s: DirScript)
    requires p !in t.nodes && !s.ToplevelSh?
    requires var parent := AclAt(r.acls, Parent(p)); parent.dflt.Some? && parent.dflt.value.users != []
    ensures !Suits(s, StartAcl(t, r.acls, p))
  {
  }
}
