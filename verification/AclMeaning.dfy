/** What the ACL check demands of a directory, said of its owner, bit and entries. */
module AclMeaning {
  import opened Strings
  import opened Sharing
  import opened PosixAcl
  import opened DirScripts
  import opened Organization
  import opened FsckAcl
  import opened ScriptsMeetCheck

  /** The entries are as wanted: the fixed ones, no named users, and of the groups with a role
      exactly the wanted ones. Groups without a role may have any entry. */
  ghost predicate Grants(e: Entries, wanted: set<(nat, Mode)>, roles: set<nat>, m: Mode) {
    && e.user == RWX && e.users == [] && e.group == NoAccess && e.mask == Some(m) && e.other == NoAccess
    && forall x: (nat, Mode) :: x.0 in roles ==> (x in e.groups <==> x in wanted)
  }

  ghost predicate Head(acl: DirAcl, uid: nat, gid: nat, setgid: bool) {
    acl.uid == uid && acl.gid == gid && acl.setgid == setgid && acl.dflt.Some?
  }

  /** What each kind of directory must look like. */
  ghost predicate AsWanted(acl: DirAcl, a: ACL) {
    match a
    case SimpleACL(u, g, user, group, other) =>
      && acl.uid == u && acl.gid == g && !acl.setgid && acl.dflt.None?
      && acl.access == Entries(user, [], group, [], None, other)
    case ServiceACL(u, srv, ops, super, access) =>
      var wanted := if access == PerService then {(srv, R_X), (ops, R_X)} else {(super, R_X)};
      && Head(acl, u, srv, false)
      && Grants(acl.access, wanted, {srv, ops, super}, R_X) && Grants(acl.dflt.value, wanted, {srv, ops, super}, R_X)
    case ServiceOrgUnitACL(u, ou, ops, srv, super) =>
      && Head(acl, u, ou, true)
      && Grants(acl.access, {(ou, RWX), (ops, RWX)}, {ou, ops, srv, super}, RWX)
      && Grants(acl.dflt.value, {(ou, RWX), (ops, RWX)}, {ou, ops, srv, super}, RWX)
    case OrgUnitACL(u, g) => Head(acl, u, g, true) && Grants(acl.access, {(g, R_X)}, {g}, R_X) && Grants(acl.dflt.value, {(g, R_X)}, {g}, R_X)
    case SubdirGroupACL(u, g) => Head(acl, u, g, true) && Grants(acl.access, {(g, RWX)}, {g}, RWX) && Grants(acl.dflt.value, {(g, RWX)}, {g}, RWX)
    case SubdirOwnerACL(u, g) => Head(acl, u, g, true) && Grants(acl.access, {(g, RWX)}, {g}, RWX) && Grants(acl.dflt.value, {(g, R_X)}, {g}, R_X)
    case SubdirManagerACL(u, g) => Head(acl, u, g, true) && Grants(acl.access, {(g, R_X)}, {g}, R_X) && Grants(acl.dflt.value, {(g, R_X)}, {g}, R_X)
  }

  /** The entitled groups of one check differ. */
  ghost predicate RolesDiffer(a: ACL) {
    && (a.ServiceACL? && a.access == PerService ==> a.serviceGid != a.serviceOpsGid)
    && (a.ServiceOrgUnitACL? ==> a.orgUnitGid != a.serviceOpsGid)
  }

  lemma OnlyIff(l: Named, gids: seq<nat>, w: Named, roles: set<nat>, wanted: set<(nat, Mode)>)
    requires Sorted(l) && Sorted(w)
    requires (forall g :: g in roles <==> g in gids) && (forall x :: x in w <==> x in wanted) && forall x :: x in wanted ==> x.0 in roles
    ensures Only(l, gids) == w <==> forall x: (nat, Mode) :: x.0 in roles ==> (x in l <==> x in wanted)
  {
    hide Sorted;
    OnlySpec(l, gids);
    if forall x: (nat, Mode) :: x.0 in roles ==> (x in l <==> x in wanted) {
      SortedUnique(Only(l, gids), w);
    }
  }

  lemma BlockIff(e: Entries, gids: seq<nat>, w: Named, m: Mode, roles: set<nat>, wanted: set<(nat, Mode)>)
    requires e.Valid() && Sorted(w)
    requires (forall g :: g in roles <==> g in gids) && (forall x :: x in w <==> x in wanted) && forall x :: x in wanted ==> x.0 in roles
    ensures OnlyGroups(e, gids) == Block(w, m) <==> Grants(e, wanted, roles, m)
  {
    hide Sorted, Only;
    OnlyIff(e.groups, gids, w, roles, wanted);
  }

  lemma PairIs(a: nat, b: nat, m: Mode)
    requires a != b
    ensures Sorted(Pair(a, b, m)) && forall x :: x in Pair(a, b, m) <==> x in {(a, m), (b, m)}
  {
  }

  lemma OneIs(a: nat, m: Mode)
    ensures Sorted([(a, m)]) && forall x :: x in [(a, m)] <==> x in {(a, m)}
  {
  }

  lemma TwoBlocks(acl: DirAcl, gids: seq<nat>, w: Named, m: Mode, v: Named, n: Mode, roles: set<nat>, wa: set<(nat, Mode)>, wd: set<(nat, Mode)>,
                  uid: nat, gid: nat, setgid: bool)
    requires acl.Valid() && Sorted(w) && Sorted(v)
    requires (forall g :: g in roles <==> g in gids) && (forall x :: x in w <==> x in wa) && (forall x :: x in v <==> x in wd)
    requires (forall x :: x in wa ==> x.0 in roles) && (forall x :: x in wd ==> x.0 in roles)
    ensures KeepGroups(acl, gids) == DirAcl(uid, gid, setgid, Block(w, m), Some(Block(v, n))) <==>
            Head(acl, uid, gid, setgid) && Grants(acl.access, wa, roles, m) && Grants(acl.dflt.value, wd, roles, n)
  {
    hide Sorted, OnlyGroups, Block, Grants, Entries.Valid;
    BlockIff(acl.access, gids, w, m, roles, wa);
    if acl.dflt.Some? { BlockIff(acl.dflt.value, gids, v, n, roles, wd); }
  }

  /** A directory passes its ACL check if and only if it is like that. */
  lemma PassesMean(path: string, acl: DirAcl, a: ACL)
    requires acl.Valid() && a.Valid() && RolesDiffer(a) && '\n' !in path
    ensures AclPasses(path, acl, a) <==> AsWanted(acl, a)
  {
    hide AclPasses, Sorted, KeepGroups, Grants, Pair, Block;
    PassesIffExpected(path, acl, a);
    var gids := a.NamedGids();
    match a
    case SimpleACL(u, g, user, group, other) => SimpleMeans(acl, a);
    case ServiceACL(u, srv, ops, super, access) =>
      PerServiceMeans(acl, a);
    case ServiceOrgUnitACL(u, ou, ops, srv, super) =>
      PairIs(ou, ops, RWX);
      TwoBlocks(acl, gids, Pair(ou, ops, RWX), RWX, Pair(ou, ops, RWX), RWX, {ou, ops, srv, super},
        {(ou, RWX), (ops, RWX)}, {(ou, RWX), (ops, RWX)}, u, ou, true);
    case OrgUnitACL(u, g) => OneGroupMeans(acl, gids, g, R_X, R_X, u);
    case SubdirGroupACL(u, g) => OneGroupMeans(acl, gids, g, RWX, RWX, u);
    case SubdirOwnerACL(u, g) => OneGroupMeans(acl, gids, g, RWX, R_X, u);
    case SubdirManagerACL(u, g) => OneGroupMeans(acl, gids, g, R_X, R_X, u);
  }

  lemma OneGroupMeans(acl: DirAcl, gids: seq<nat>, g: nat, m: Mode, n: Mode, u: nat)
    requires acl.Valid() && gids == [g]
    ensures KeepGroups(acl, gids) == DirAcl(u, g, true, Block([(g, m)], m), Some(Block([(g, n)], n))) <==>
            Head(acl, u, g, true) && Grants(acl.access, {(g, m)}, {g}, m) && Grants(acl.dflt.value, {(g, n)}, {g}, n)
  {
    hide Sorted, KeepGroups, Grants, Block;
    OneIs(g, m);
    OneIs(g, n);
    TwoBlocks(acl, gids, [(g, m)], m, [(g, n)], n, {g}, {(g, m)}, {(g, n)}, u, g, true);
  }

  lemma PerServiceMeans(acl: DirAcl, a: ACL)
    requires acl.Valid() && a.Valid() && RolesDiffer(a) && a.ServiceACL?
    ensures KeepGroups(acl, a.NamedGids()) == ExpectedAcl(a) <==> AsWanted(acl, a)
  {
    hide Sorted, KeepGroups, Grants, Pair, Block;
    var srv, ops, super := a.serviceGid, a.serviceOpsGid, a.superGid;
    if a.access == PerService {
      PairIs(srv, ops, R_X);
      TwoBlocks(acl, a.NamedGids(), Pair(srv, ops, R_X), R_X, Pair(srv, ops, R_X), R_X, {srv, ops, super},
        {(srv, R_X), (ops, R_X)}, {(srv, R_X), (ops, R_X)}, a.uid, srv, false);
    } else {
      OneIs(super, R_X);
      TwoBlocks(acl, a.NamedGids(), [(super, R_X)], R_X, [(super, R_X)], R_X, {srv, ops, super},
        {(super, R_X)}, {(super, R_X)}, a.uid, srv, false);
    }
  }

  lemma SimpleMeans(acl: DirAcl, a: ACL)
    requires acl.Valid() && a.SimpleACL?
    ensures KeepGroups(acl, a.NamedGids()) == ExpectedAcl(a) <==> AsWanted(acl, a)
  {
    OnlyNone(acl.access.groups);
    if acl.dflt.Some? { OnlyNone(acl.dflt.value.groups); }
  }

  lemma {:induction false} OnlyNone(l: Named)
    ensures Only(l, []) == []
  {
    if l != [] { OnlyNone(l[1..]); }
  }

  /** For example, an entry of the super group that was left on the directory of a service with
      the policy per service is reported. */
  lemma LeftSuperEntryFails(path: string, acl: DirAcl, u: nat, srv: nat, ops: nat, super: nat, m: Mode)
    requires acl.Valid() && srv != ops && super != srv && super != ops && '\n' !in path
    requires (super, m) in acl.access.groups
    ensures !AclPasses(path, acl, ServiceACL(u, srv, ops, super, PerService))
  {
    hide AclPasses;
    PassesMean(path, acl, ServiceACL(u, srv, ops, super, PerService));
  }
}
