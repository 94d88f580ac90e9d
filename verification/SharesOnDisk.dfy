/** The group entries that an existing share has after a run, with the names they have on
    disk. */
module SharesOnDisk {
  import opened Strings
  import opened Paths
  import opened Sharing
  import opened Nesting
  import opened RealShares
  import opened AclStore
  import opened SharingAclApply
  import opened RealSharesExact
  import opened SharingFixpoint

  /** Some entry of the ACL is for the org unit with this group on disk. */
  ghost predicate GrantedName(fs: Bcpfs, acl: Acl, g: string) {
    exists i :: 0 <= i < |acl| && g == fs.orgUnitGroupPrefix + "_" + acl[i].group
  }

  /** The group on disk belongs to a managing group of the path: outside services the org unit
      of the path; in a service the org unit that the part belongs to, and the ops group of
      the facility that operates the service. */
  ghost predicate ManagingName(fs: Bcpfs, p: string, g: string) {
    var parts, org := Parts(p), fs.orgUnitGroupPrefix + "_";
    if |parts| < 2 || parts[1] !in fs.facilityByService then g == org + parts[0]
    else
      || g == fs.serviceGroupPrefix + "_" + fs.facilityByService[parts[1]] + "-ops"
      || (parts[0] !in fs.facilityDirs && g == org + parts[0])
      || (parts[0] in fs.facilityDirs && |parts| >= 3 && g == org + parts[2])
  }

  /** Managing groups are known except at the top of a service. */
  lemma ManagedUnlessTop(fs: Bcpfs, p: string)
    ensures fs.ManagingGroupsOfPath(p).Ok? <==>
            !(|Parts(p)| == 2 && Parts(p)[1] in fs.facilityByService && Parts(p)[0] in fs.facilityDirs)
  {
    hide Split;
  }

  lemma GrantedIff(fs: Bcpfs, acl: Acl, g: string)
    ensures GrantedName(fs, acl, g) <==> g in Grantees(AsFacl(fs, acl))
  {
    var facl := AsFacl(fs, acl);
    if i :| 0 <= i < |acl| && g == fs.orgUnitGroupPrefix + "_" + acl[i].group { assert facl[i] in facl && facl[i].group == g; }
    if g in Grantees(facl) {
      var ace :| ace in facl && ace.group == g;
      var i :| 0 <= i < |facl| && facl[i] == ace;
      assert g == fs.orgUnitGroupPrefix + "_" + acl[i].group;
    }
  }

  lemma ManagingIff(fs: Bcpfs, p: string, managing: seq<Group>, g: string)
    requires fs.ManagingGroupsOfPath(p) == Ok(managing)
    ensures ManagingName(fs, p, g) <==> g in FsGroups(fs, managing)
  {
    hide Split;
    var gs := FsGroups(fs, managing);
    if |managing| == 1 {
      assert gs == [fs.FsGroup(managing[0])];
    } else {
      assert gs == [fs.FsGroup(managing[0]), fs.FsGroup(managing[1])];
    }
  }

  /** The share's directory has both entries of this group with this mode. */
  ghost predicate EntriesAre(acl: FileAcl, g: string, mode: Mode) {
    && acl.DirAcl? && acl.dflt.Some?
    && g in acl.access.named && acl.access.named[g] == mode
    && g in acl.dflt.value.named && acl.dflt.value.named[g] == mode
  }

  ghost predicate NoEntries(acl: FileAcl, g: string) {
    g !in acl.access.named && (acl.DirAcl? && acl.dflt.Some? ==> g !in acl.dflt.value.named)
  }

  lemma EntriesOf(acl: FileAcl, g: string, mode: Mode)
    requires acl.DirAcl?
    ensures HasBoth(acl, Ace(g, mode)) <==> EntriesAre(acl, g, mode)
    ensures g !in acl.access.named && g !in acl.DefaultNamed() <==> NoEntries(acl, g)
  {
  }

  /** After a run, an existing share grants every listed org unit its last listed mode; the
      path's managing groups keep what they had, and no other group has an entry. */
  lemma GroupsOnDisk(acls: Acls, fs: Bcpfs, reals: Exports, r: ExportEntry, p: string)
    requires RealsApart(reals) && r in reals && IsDirAcl(acls, r.path) && fs.ManagingGroupsOfPath(p) == Ok(r.managing)
    ensures r.path in AfterRealShares(acls, fs, reals)
    ensures var after := AfterRealShares(acls, fs, reals)[r.path];
            && (forall i :: 0 <= i < |r.acl| ==>
                  EntriesAre(after, fs.orgUnitGroupPrefix + "_" + r.acl[i].group, LastMode(r.acl, r.acl[i].group)))
            && (forall g :: !GrantedName(fs, r.acl, g) && ManagingName(fs, p, g) ==> SameEntry(after, acls[r.path], g))
            && (forall g :: !GrantedName(fs, r.acl, g) && !ManagingName(fs, p, g) ==> NoEntries(after, g))
  {
    hide GrantedName, ManagingName, EntriesAre, NoEntries, SameEntry, RealsApart, LastMode, Exact, AfterRealShares, Bcpfs.ManagingGroupsOfPath;
    RealSharesAreExact(acls, fs, reals);
    var after := AfterRealShares(acls, fs, reals)[r.path];
    forall i | 0 <= i < |r.acl|
      ensures EntriesAre(after, fs.orgUnitGroupPrefix + "_" + r.acl[i].group, LastMode(r.acl, r.acl[i].group))
    {
      GrantedEntry(after, acls[r.path], fs, r, i);
    }
    forall g | !GrantedName(fs, r.acl, g)
      ensures if ManagingName(fs, p, g) then SameEntry(after, acls[r.path], g) else NoEntries(after, g)
    {
      OtherEntry(after, acls[r.path], fs, r, p, g);
    }
  }

  lemma GrantedEntry(after: FileAcl, before: FileAcl, fs: Bcpfs, r: ExportEntry, i: nat)
    requires Exact(after, before, AsFacl(fs, r.acl), FsGroups(fs, r.managing)) && i < |r.acl|
    ensures r.acl[i].group in Grantees(r.acl)
    ensures EntriesAre(after, fs.orgUnitGroupPrefix + "_" + r.acl[i].group, LastMode(r.acl, r.acl[i].group))
  {
    hide EntriesAre, HasBoth, SameEntry, LastMode, Grantees;
    GrantedHas(fs, r.acl, i);
    LastModeAsFacl(fs, r.acl, r.acl[i].group);
    EntriesOf(after, AsFacl(fs, r.acl)[i].group, LastMode(r.acl, r.acl[i].group));
  }

  lemma OtherEntry(after: FileAcl, before: FileAcl, fs: Bcpfs, r: ExportEntry, p: string, g: string)
    requires Exact(after, before, AsFacl(fs, r.acl), FsGroups(fs, r.managing)) && fs.ManagingGroupsOfPath(p) == Ok(r.managing)
    requires !GrantedName(fs, r.acl, g)
    ensures if ManagingName(fs, p, g) then SameEntry(after, before, g) else NoEntries(after, g)
  {
    hide GrantedName, ManagingName, EntriesAre, NoEntries, HasBoth, SameEntry, LastMode, Grantees, Bcpfs.ManagingGroupsOfPath;
    GrantedIff(fs, r.acl, g);
    ManagingIff(fs, p, r.managing, g);
    EntriesOf(after, g, NoAccess);
  }

  lemma GrantedHas(fs: Bcpfs, acl: Acl, i: nat)
    requires i < |acl|
    ensures acl[i].group in Grantees(acl) && AsFacl(fs, acl)[i].group in Grantees(AsFacl(fs, acl))
    ensures AsFacl(fs, acl)[i].group == fs.orgUnitGroupPrefix + "_" + acl[i].group
  {
    assert acl[i] in acl && AsFacl(fs, acl)[i] in AsFacl(fs, acl);
  }
}
