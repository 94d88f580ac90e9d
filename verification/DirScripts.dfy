/** The scripts that give a toplevel directory its owner, set-group-id bit and ACL,
    read as transformers of the ACL. */
module DirScripts {
  import opened Sharing
  import opened PosixAcl

  const RWX := Mode(true, true, true)
  const R_X := Mode(true, false, true)

  datatype DirScript =
    | ToplevelSh
    | ServiceSh(gid: nat, opsGid: nat, superGid: nat)
    | ServiceAllOrgUnitsSh(gid: nat, opsGid: nat, superGid: nat)
    | ServiceOrgUnitSh(gid: nat, srvGid: nat, opsGid: nat, superGid: nat)
    | OrgUnitSh(gid: nat)
    | GroupSubdirSh(gid: nat)
    | OwnerSubdirSh(gid: nat)
    | ManagerSubdirSh(gid: nat)
  {
    /** chown root:<gid> */
    function Owner(): nat {
      if ToplevelSh? then 0 else gid
    }

    /** chmod g+s */
    predicate SetsGid() {
      !ToplevelSh? && !ServiceSh? && !ServiceAllOrgUnitsSh?
    }

    /** The normal lines for setfacl -M. */
    function Normal(): seq<Line> {
      match this
      case ToplevelSh => [User(RWX), Group(R_X), Other(R_X)]
      case ServiceSh(g, ops, _) =>
        [User(RWX), Group(NoAccess), NamedGroup(g, R_X), NamedGroup(ops, R_X), Mask(R_X), Other(NoAccess)]
      case ServiceAllOrgUnitsSh(_, _, super) =>
        [User(RWX), Group(NoAccess), NamedGroup(super, R_X), Mask(R_X), Other(NoAccess)]
      case ServiceOrgUnitSh(g, _, ops, _) =>
        [User(RWX), Group(NoAccess), NamedGroup(g, RWX), NamedGroup(ops, RWX), Mask(RWX), Other(NoAccess)]
      case OrgUnitSh(g) => [User(RWX), Group(NoAccess), NamedGroup(g, R_X), Mask(R_X), Other(NoAccess)]
      case GroupSubdirSh(g) => [User(RWX), Group(NoAccess), NamedGroup(g, RWX), Mask(RWX), Other(NoAccess)]
      case OwnerSubdirSh(g) => [User(RWX), Group(NoAccess), NamedGroup(g, RWX), Mask(RWX), Other(NoAccess)]
      case ManagerSubdirSh(g) => [User(RWX), Group(NoAccess), NamedGroup(g, R_X), Mask(R_X), Other(NoAccess)]
    }

    /** The default lines for setfacl -M. */
    function Default(): seq<Line> {
      match this
      case ToplevelSh => []
      case ServiceSh(g, ops, _) =>
        [User(RWX), Group(NoAccess), NamedGroup(g, R_X), NamedGroup(ops, R_X), Mask(R_X), Other(NoAccess)]
      case ServiceAllOrgUnitsSh(_, _, super) =>
        [User(RWX), Group(NoAccess), NamedGroup(super, R_X), Mask(R_X), Other(NoAccess)]
      case ServiceOrgUnitSh(g, _, ops, _) =>
        [User(RWX), Group(NoAccess), NamedGroup(g, RWX), NamedGroup(ops, RWX), Mask(RWX), Other(NoAccess)]
      case OrgUnitSh(g) => [User(RWX), Group(NoAccess), NamedGroup(g, R_X), Mask(R_X), Other(NoAccess)]
      case GroupSubdirSh(g) => [User(RWX), Group(NoAccess), NamedGroup(g, RWX), Mask(RWX), Other(NoAccess)]
      case OwnerSubdirSh(g) => [User(RWX), Group(NoAccess), NamedGroup(g, R_X), Mask(R_X), Other(NoAccess)]
      case ManagerSubdirSh(g) => [User(RWX), Group(NoAccess), NamedGroup(g, R_X), Mask(R_X), Other(NoAccess)]
    }

    /** The groups whose normal and default entries setfacl -X deletes. */
    function Removed(): seq<nat> {
      match this
      case ServiceSh(_, _, super) => [super]
      case ServiceAllOrgUnitsSh(g, ops, _) => [g, ops]
      case ServiceOrgUnitSh(_, srv, _, super) => [srv, super]
      case _ => []
    }
  }

  /** What a script makes of the ACL of its directory. */
  function AfterScript(s: DirScript, acl: DirAcl): DirAcl {
    var owned := acl.(uid := 0, gid := s.Owner());
    var marked := if s.SetsGid() then owned.(setgid := true) else owned;
    Remove(Modify(marked, s.Normal(), s.Default()), s.Removed())
  }

  // The entries that a setfacl -M block sets, and those left by -X

  /** One of the two halves of a script on an ACL: entitle `gids` with mode `m`,
      which is also the mask, and delete `removed`. */
  function Half(e: Entries, gids: seq<nat>, m: Mode, removed: seq<nat>): Entries {
    RemoveEntries(ModifyEntries(e, [User(RWX), Group(NoAccess)] + GroupLines(gids, m) + [Mask(m), Other(NoAccess)]), removed)
  }

  function GroupLines(gids: seq<nat>, m: Mode): seq<Line> {
    if gids == [] then [] else GroupLines(gids[..|gids| - 1], m) + [NamedGroup(gids[|gids| - 1], m)]
  }

  function PutAll(l: Named, gids: seq<nat>, m: Mode): Named {
    if gids == [] then l else Put(PutAll(l, gids[..|gids| - 1], m), gids[|gids| - 1], m)
  }

  lemma SetOneMore(e: Entries, lines: seq<Line>, l: Line)
    ensures SetLines(e, lines + [l]) == SetLine(SetLines(e, lines), l)
  {
    assert (lines + [l])[..|lines|] == lines;
  }

  lemma {:induction false} SetGroupLines(e: Entries, lines: seq<Line>, gids: seq<nat>, m: Mode)
    ensures SetLines(e, lines + GroupLines(gids, m)) ==
            SetLines(e, lines).(groups := PutAll(SetLines(e, lines).groups, gids, m))
  {
    if gids == [] {
      assert lines + GroupLines(gids, m) == lines;
    } else {
      var n := |gids| - 1;
      SetGroupLines(e, lines, gids[..n], m);
      SetOneMore(e, lines + GroupLines(gids[..n], m), NamedGroup(gids[n], m));
      assert lines + GroupLines(gids, m) == lines + GroupLines(gids[..n], m) + [NamedGroup(gids[n], m)];
    }
  }

  lemma ModifyBlock(e: Entries, gids: seq<nat>, m: Mode)
    ensures ModifyEntries(e, [User(RWX), Group(NoAccess)] + GroupLines(gids, m) + [Mask(m), Other(NoAccess)]) ==
            Entries(RWX, e.users, NoAccess, PutAll(e.groups, gids, m), Some(m), NoAccess)
  {
    var start := [User(RWX), Group(NoAccess)];
    var most := start + GroupLines(gids, m);
    var lines := most + [Mask(m), Other(NoAccess)];
    SetOneMore(e, [], User(RWX));
    SetOneMore(e, [User(RWX)], Group(NoAccess));
    assert [] + [User(RWX)] == [User(RWX)] && [User(RWX)] + [Group(NoAccess)] == start;
    SetGroupLines(e, start, gids, m);
    SetOneMore(e, most, Mask(m));
    SetOneMore(e, most + [Mask(m)], Other(NoAccess));
    assert most + [Mask(m)] + [Other(NoAccess)] == lines;
    assert lines[|most|] == Mask(m);
  }

  lemma LastIn(gids: seq<nat>)
    requires gids != []
    ensures forall g :: g in gids <==> g in gids[..|gids| - 1] || g == gids[|gids| - 1]
  {
    assert gids == gids[..|gids| - 1] + [gids[|gids| - 1]];
  }

  lemma {:induction false} PutAllSpec(l: Named, gids: seq<nat>, m: Mode)
    requires Sorted(l)
    ensures Sorted(PutAll(l, gids, m)) && (gids != [] ==> PutAll(l, gids, m) != [])
    ensures forall e :: e in PutAll(l, gids, m) <==> (e.0 in gids && e.1 == m) || (e in l && e.0 !in gids)
  {
    if gids != [] {
      var n := |gids| - 1;
      hide Sorted, Put;
      PutAllSpec(l, gids[..n], m);
      PutSpec(PutAll(l, gids[..n], m), gids[n], m);
      LastIn(gids);
    }
  }

  lemma {:induction false} DelAllSpec(l: Named, gids: seq<nat>)
    requires Sorted(l)
    ensures Sorted(DelAll(l, gids))
    ensures forall e :: e in DelAll(l, gids) <==> e in l && e.0 !in gids
  {
    if gids != [] {
      var n := |gids| - 1;
      hide Sorted, Del;
      DelAllSpec(l, gids[..n]);
      DelSpec(DelAll(l, gids[..n]), gids[n]);
      LastIn(gids);
    }
  }

  /** The groups after both commands, as a set. */
  ghost predicate LeavesGroups(before: Named, gids: seq<nat>, m: Mode, removed: seq<nat>, after: Named) {
    && Sorted(after)
    && forall e :: e in after <==> (e.0 in gids && e.1 == m) || (e in before && e.0 !in gids && e.0 !in removed)
  }

  /** Everybody whose entry the script does not set or delete fits under mode `m`. */
  predicate OthersWithin(l: Named, named: seq<nat>, m: Mode) {
    forall e :: e in l && e.0 !in named ==> e.1.Within(m)
  }

  lemma HalfResult(e: Entries, gids: seq<nat>, m: Mode, removed: seq<nat>)
    requires e.Valid() && gids != [] && forall g :: g in gids ==> g !in removed
    ensures var r := Half(e, gids, m, removed);
            && r.Valid() && r.mask.Some?
            && r == Entries(RWX, e.users, NoAccess, r.groups, r.mask, NoAccess)
            && LeavesGroups(e.groups, gids, m, removed, r.groups)
            && (removed == [] ==> r.mask == Some(m))
            && (removed != [] && e.users == [] ==>
                  (r.mask == Some(m) <==> OthersWithin(e.groups, gids + removed, m)))
  {
    hide PutAll, DelAll, GroupLines;
    ModifyBlock(e, gids, m);
    PutAllSpec(e.groups, gids, m);
    var mid := Entries(RWX, e.users, NoAccess, PutAll(e.groups, gids, m), Some(m), NoAccess);
    DelAllSpec(mid.groups, removed);
    if removed != [] {
      var left := DelAll(mid.groups, removed);
      assert (gids[0], m) in left;
      UnionWithin(left, m);
      MaskExact(left, m, (gids[0], m));
      assert Half(e, gids, m, removed).groups == left;
      assert OthersWithin(e.groups, gids + removed, m) <==> forall x :: x in left ==> x.1.Within(m) by {
        forall x | x in left && OthersWithin(e.groups, gids + removed, m) ensures x.1.Within(m) {
        }
        if forall x :: x in left ==> x.1.Within(m) {
          forall x | x in e.groups && x.0 !in gids + removed ensures x.1.Within(m) {
            assert x in left;
          }
        }
      }
    }
  }

  /** With an entry of mode `m` in the list, the recalculated mask is `m` exactly if
      all entries fit under it. */
  lemma MaskExact(l: Named, m: Mode, e: (nat, Mode))
    requires e in l && e.1 == m
    ensures NoAccess.Or(UnionOf([])).Or(UnionOf(l)) == m <==> UnionOf(l).Within(m)
  {
    UnionWithin(l, UnionOf(l));
  }
}
