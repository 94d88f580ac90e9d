/** Scripts on directories that carry no entries but those of the groups they name. */
module FreshScripts {
  import opened Strings
  import opened Sharing
  import opened PosixAcl
  import opened DirScripts
  import opened Organization
  import opened FsckAcl
  import opened ScriptsMeetCheck

  ghost predicate AllNamed(l: Named, gids: seq<nat>) {
    forall e :: e in l ==> e.0 in gids
  }

  lemma {:induction false} OnlyAll(l: Named, gids: seq<nat>)
    requires AllNamed(l, gids)
    ensures Only(l, gids) == l
  {
    if l != [] {
      assert l[0] in l;
      forall e | e in l[1..] ensures e.0 in gids {
        assert e in l;
      }
      OnlyAll(l[1..], gids);
      assert l == [l[0]] + l[1..];
    }
  }

  /** The ACL has no entry for users or for groups that the script does not name. */
  ghost predicate OnlyNamedGroups(s: DirScript, acl: DirAcl) {
    && AllNamed(acl.access.groups, CheckOf(s).NamedGids())
    && (acl.dflt.Some? ==> AllNamed(acl.dflt.value.groups, CheckOf(s).NamedGids()))
  }

  /** On such an ACL a script leaves exactly the expected one. */
  lemma ScriptExact(s: DirScript, before: DirAcl)
    requires before.Valid() && DistinctGids(s) && Suits(s, before) && OnlyNamedGroups(s, before)
    ensures AfterScript(s, before) == ExpectedAcl(CheckOf(s))
  {
    hide AfterScript, ExpectedAcl, Suits, Only;
    var after, gids := AfterScript(s, before), CheckOf(s).NamedGids();
    ScriptLeavesExpected(s, before);
    forall e | e in after.access.groups ensures e.0 in gids {
      if e.0 !in gids { ScriptKeepsOtherEntries(s, before, e); }
    }
    OnlyAll(after.access.groups, gids);
    if after.dflt.Some? {
      ScriptDefault(s, before);
      forall e | e in after.dflt.value.groups ensures e.0 in gids {
        if e.0 !in gids { ScriptKeepsOtherDefaults(s, before, e); }
      }
      OnlyAll(after.dflt.value.groups, gids);
    }
  }

  lemma ScriptDefault(s: DirScript, before: DirAcl)
    requires before.Valid()
    ensures s.ToplevelSh? ==> AfterScript(s, before).dflt == before.dflt
  {
    if s.ToplevelSh? { ToplevelGroups(before); }
  }

  lemma ScriptKeepsOtherDefaults(s: DirScript, before: DirAcl, e: (nat, Mode))
    requires before.Valid() && DistinctGids(s) && e.0 !in CheckOf(s).NamedGids()
    requires AfterScript(s, before).dflt.Some? && e in AfterScript(s, before).dflt.value.groups
    ensures before.dflt.Some? && e in before.dflt.value.groups
  {
    if s.ToplevelSh? {
      ToplevelGroups(before);
    } else {
      hide AfterScript, Half;
      ScriptHalves(s, before);
      NamedAreEntitledOrRemoved(s);
      HalfResult(DefaultOf(before), EntitledGids(s), DefaultMask(s), s.Removed());
    }
  }

  /** What a directory passes on suits the script for its child. */
  ghost predicate Heir(parent: DirAcl, s: DirScript) {
    && parent.Valid()
    && (s.ToplevelSh? ==> parent.dflt.None?)
    && (parent.setgid ==> s.SetsGid())
    && (parent.dflt.Some? ==> parent.dflt.value.users == [] && AllNamed(parent.dflt.value.groups, CheckOf(s).NamedGids()))
  }

  lemma NamedWithin(l: Named, gids: seq<nat>, named: seq<nat>, m: Mode)
    requires AllNamed(l, gids) && forall g :: g in gids ==> g in named
    ensures OthersWithin(l, named, m)
  {
  }

  lemma NamedSuits(s: DirScript, before: DirAcl)
    requires DistinctGids(s) && !s.ToplevelSh? && OnlyNamedGroups(s, before) && (before.setgid ==> s.SetsGid())
    requires before.access.users == [] && (before.dflt.Some? ==> before.dflt.value.users == [])
    ensures Suits(s, before)
  {
    hide OthersWithin, AllNamed;
    NamedAreEntitledOrRemoved(s);
    var gids, named := CheckOf(s).NamedGids(), EntitledGids(s) + s.Removed();
    NamedWithin(before.access.groups, gids, named, AccessMask(s));
    if before.dflt.Some? { NamedWithin(before.dflt.value.groups, gids, named, DefaultMask(s)); }
  }

  /** mkdir and the script together give the expected ACL. */
  lemma FreshScript(s: DirScript, parent: DirAcl)
    requires DistinctGids(s) && Heir(parent, s)
    ensures AfterScript(s, Inherit(parent, RWX, R_X, R_X)) == ExpectedAcl(CheckOf(s))
  {
    hide AfterScript, ExpectedAcl;
    var before := Inherit(parent, RWX, R_X, R_X);
    InheritValid(parent, RWX, R_X, R_X);
    if !s.ToplevelSh? { NamedSuits(s, before); }
    ScriptExact(s, before);
  }

  lemma PairSorted(a: nat, b: nat, m: Mode)
    requires a != b
    ensures Sorted(Pair(a, b, m)) && AllNamed(Pair(a, b, m), [a, b])
  {
  }

  /** The expected ACL itself. */
  lemma ExpectedIsFit(s: DirScript)
    requires DistinctGids(s)
    ensures ExpectedAcl(CheckOf(s)).Valid() && OnlyNamedGroups(s, ExpectedAcl(CheckOf(s))) && Suits(s, ExpectedAcl(CheckOf(s)))
    ensures ExpectedAcl(CheckOf(s)).setgid == s.SetsGid()
  {
    match s
    case ServiceSh(g, ops, super) => PairSorted(g, ops, R_X);
    case ServiceOrgUnitSh(g, srv, ops, super) => PairSorted(g, ops, RWX);
    case _ =>
  }

  /** Running the script of a directory that is as expected changes nothing. */
  lemma RerunScript(s: DirScript)
    requires DistinctGids(s)
    ensures AfterScript(s, ExpectedAcl(CheckOf(s))) == ExpectedAcl(CheckOf(s))
  {
    hide AfterScript, ExpectedAcl, Suits;
    ExpectedIsFit(s);
    ScriptExact(s, ExpectedAcl(CheckOf(s)));
  }

  /** The expected ACL passes its own check. */
  lemma ExpectedPasses(path: string, a: ACL)
    requires a.Valid() && '\n' !in path
    ensures AclPasses(path, ExpectedAcl(a), a)
  {
    hide AclPasses, Only;
    PassesIffExpected(path, ExpectedAcl(a), a);
    var acl, gids := ExpectedAcl(a), a.NamedGids();
    OnlyAll(acl.access.groups, gids);
    if acl.dflt.Some? { OnlyAll(acl.dflt.value.groups, gids); }
  }

  // Which script may follow which

  lemma TopHeirs(s: DirScript)
    ensures Heir(ExpectedAcl(CheckOf(ToplevelSh)), s)
  {
  }

  lemma ServiceHeir(parent: DirScript, ou: nat, srv: nat, ops: nat, super: nat)
    requires parent == ServiceSh(srv, ops, super) || parent == ServiceAllOrgUnitsSh(srv, ops, super)
    requires DistinctGids(parent)
    ensures Heir(ExpectedAcl(CheckOf(parent)), ServiceOrgUnitSh(ou, srv, ops, super))
  {
    if parent.ServiceSh? { PairSorted(srv, ops, R_X); }
  }

  lemma OrgUnitHeir(gid: nat, s: DirScript)
    requires s == GroupSubdirSh(gid) || s == OwnerSubdirSh(gid) || s == ManagerSubdirSh(gid)
    ensures Heir(ExpectedAcl(CheckOf(OrgUnitSh(gid))), s)
  {
  }
}
