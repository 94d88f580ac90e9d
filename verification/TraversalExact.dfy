/** What EnsureTraversal does to an ACL, entry by entry. */
module TraversalExact {
  import opened Strings
  import opened Paths
  import opened Sharing
  import opened AclStore
  import opened SharingAclApply
  import opened TraversalApply

  /** An entry of the traversal list for this existing directory names the org unit with this
      group on disk. */
  ghost predicate WantsX(acls: Acls, fs: Bcpfs, travs: Exports, p: string, g: string) {
    && p in acls && acls[p].DirAcl?
    && exists t, i :: t in travs && t.path == p && 0 <= i < |t.acl| && g == fs.orgUnitGroupPrefix + "_" + t.acl[i].group
  }

  /** Only entries `--x` of the access ACL are set, and a missing mask becomes the owning
      group's entry. */
  ghost predicate OnlyX(acls: Acls, fs: Bcpfs, travs: Exports, p: string, after: FileAcl)
    requires p in acls
  {
    var before := acls[p];
    && (before.DirAcl? <==> after.DirAcl?) && (before.DirAcl? ==> after.dflt == before.dflt)
    && after.access.group == before.access.group && after.access.users == before.access.users
    && (after.access.mask == before.access.mask || (before.access.mask.None? && after.access.mask == Some(before.access.group)))
    && forall g ::
         if WantsX(acls, fs, travs, p, g) then g in after.access.named && after.access.named[g] == Mode(false, false, true)
         else (g in after.access.named <==> g in before.access.named) && (g in before.access.named ==> after.access.named[g] == before.access.named[g])
  }

  lemma WantsMeans(acls: Acls, fs: Bcpfs, travs: Exports, p: string, g: string)
    ensures WantsX(acls, fs, travs, p, g) <==>
            IsDirAcl(acls, p) && exists t, ace :: t in travs && t.path == p && ace in t.acl && g == fs.FsGroupOrgUnit(ace.group)
  {
    if WantsX(acls, fs, travs, p, g) {
      var t, i :| t in travs && t.path == p && 0 <= i < |t.acl| && g == fs.orgUnitGroupPrefix + "_" + t.acl[i].group;
      assert t.acl[i] in t.acl && g == fs.FsGroupOrgUnit(t.acl[i].group);
    }
    if t, ace :| t in travs && t.path == p && ace in t.acl && g == fs.FsGroupOrgUnit(ace.group) {
      var i :| 0 <= i < |t.acl| && t.acl[i] == ace;
    }
  }

  lemma GroupAt(pairs: Pairs, p: string, g: string)
    ensures g in GroupsAt(pairs, p) <==> (p, g) in pairs
  {
    if (p, g) in pairs { assert (p, g).0 == p; }
  }

  /** Every file ends like that, and no file comes or goes. */
  lemma TraversalIsExact(acls: Acls, fs: Bcpfs, travs: Exports)
    ensures var after := AfterPairs(acls, Pending(acls, fs, travs));
            after.Keys == acls.Keys && forall p :: p in acls ==> OnlyX(acls, fs, travs, p, after[p])
  {
    hide Pending, WantsX, Bcpfs.FsGroupOrgUnit;
    var pairs := Pending(acls, fs, travs);
    forall p | p in acls ensures OnlyX(acls, fs, travs, p, AfterPairs(acls, pairs)[p]) {
      forall g
        ensures g in GroupsAt(pairs, p) <==> WantsX(acls, fs, travs, p, g) && !HasTraverse(acls[p], g)
      {
        GroupAt(pairs, p, g);
        InPending(acls, fs, travs, p, g);
        WantsMeans(acls, fs, travs, p, g);
      }
    }
  }
}
