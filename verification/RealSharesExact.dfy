/** What EnsureRealShares achieves: although all ACLs are read once before the
    first write, every existing share ends with exactly the wanted entries. */
module RealSharesExact {
  import opened Strings
  import opened Paths
  import opened Sharing
  import opened Nesting
  import opened RealShares
  import opened AclStore
  import opened SharingAclApply

  lemma NoGrantees()
    ensures Grantees([]) == {}
  {
  }

  lemma {:induction false} SetAllNamedAt(part: AclPart, entries: Acl, g: string)
    ensures var after := SetAllNamed(part, entries);
            && after.group == part.group && after.users == part.users
            && (after.mask == if entries != [] && part.mask.None? then Some(part.group) else part.mask)
            && (if g in Grantees(entries) then g in after.named && after.named[g] == LastMode(entries, g)
                else (g in after.named <==> g in part.named) && (g in part.named ==> after.named[g] == part.named[g]))
  {
    hide Grantees, Allows, TraverseOnlyAcl;
    if entries != [] {
      var n := |entries| - 1;
      SetAllNamedAt(part, entries[..n], g);
      assert entries == entries[..n] + [entries[n]];
      AllowsAppend(entries[..n], entries[n]);
    } else {
      NoGrantees();
    }
  }

  /** The ACL of a share's own directory after its commands. */
  function AfterFacl(acl: FileAcl, desired: Acl, additional: seq<string>): FileAcl {
    var a := if NeedModify(acl, desired) then ModifyFile(acl, desired) else acl;
    if ToRemove(acl, desired, additional) != {} then RemoveFromFile(a, ToRemove(acl, desired, additional)) else a
  }

  /** Desired groups have their mode in the access and the default ACL, groups that
      are neither desired nor managing have no entry, managing groups are as they
      were. */
  ghost predicate Exact(after: FileAcl, before: FileAcl, desired: Acl, additional: seq<string>) {
    && after.DirAcl?
    && (forall g :: g in Grantees(desired) ==> HasBoth(after, Ace(g, LastMode(desired, g))))
    && (forall g :: g !in Grantees(desired) && g !in additional ==>
          g !in after.access.named && g !in after.DefaultNamed())
    && (forall g :: g !in Grantees(desired) && g in additional ==> SameEntry(after, before, g))
  }

  predicate SameEntry(a: FileAcl, b: FileAcl, g: string) {
    && (g in a.access.named <==> g in b.access.named)
    && (g in a.access.named && g in b.access.named ==> a.access.named[g] == b.access.named[g])
    && (g in a.DefaultNamed() <==> g in b.DefaultNamed())
    && (g in a.DefaultNamed() && g in b.DefaultNamed() ==> a.DefaultNamed()[g] == b.DefaultNamed()[g])
  }

  lemma ModifiedEntry(acl: FileAcl, desired: Acl, g: string)
    requires acl.DirAcl?
    ensures var a := if NeedModify(acl, desired) then ModifyFile(acl, desired) else acl;
            && a.DirAcl?
            && (if g in Grantees(desired) then HasBoth(a, Ace(g, LastMode(desired, g))) else SameEntry(a, acl, g))
  {
    if NeedModify(acl, desired) {
      SetAllNamedAt(acl.access, desired, g);
      SetAllNamedAt(DefaultBase(acl), desired, g);
    } else if g in Grantees(desired) {
      LastModeIn(desired, g);
      var ace :| ace in desired && ace.group == g && ace.mode == LastMode(desired, g);
      assert HasBoth(acl, ace);
    }
  }

  lemma AfterFaclExact(acl: FileAcl, desired: Acl, additional: seq<string>)
    requires acl.DirAcl?
    ensures Exact(AfterFacl(acl, desired, additional), acl, desired, additional)
  {
    var a := if NeedModify(acl, desired) then ModifyFile(acl, desired) else acl;
    var after, gone := AfterFacl(acl, desired, additional), ToRemove(acl, desired, additional);
    forall g
      ensures
        if g in gone then g !in after.access.named && g !in after.DefaultNamed()
        else if g in Grantees(desired) then HasBoth(after, Ace(g, LastMode(desired, g)))
        else SameEntry(after, acl, g)
    {
      ModifiedEntry(acl, desired, g);
    }
    ModifiedEntry(acl, desired, "");
  }

  // Commands for one share touch nothing outside it

  lemma FaclOpsAt(acls: Acls, path: string, desired: Acl, additional: seq<string>, p: string)
    requires path in acls
    ensures var after := RunOps(acls, FaclOps(acls[path], path, desired, additional));
            && after.Keys == acls.Keys
            && after[path] == AfterFacl(acls[path], desired, additional)
            && (p in acls && !Within(p, path) ==> after[p] == acls[p])
  {
    var acl := acls[path];
    var first := if NeedModify(acl, desired) then [ModifyTree(path, desired)] else [];
    var gone := ToRemove(acl, desired, additional);
    var second := if gone != {} then [RemoveTree(path, SortedSet(gone))] else [];
    RunOpsConcat(acls, first, second);
    RunOne(acls, ModifyTree(path, desired));
    RunOne(RunOps(acls, first), RemoveTree(path, SortedSet(gone)));
  }

  ghost predicate RealsApart(reals: Exports) {
    forall i, j :: 0 <= i < |reals| && 0 <= j < |reals| && i != j ==> !Within(reals[i].path, reals[j].path)
  }

  function AfterShare(acls: Acls, fs: Bcpfs, r: ExportEntry): FileAcl
    requires r.path in acls
  {
    AfterFacl(acls[r.path], AsFacl(fs, r.acl), FsGroups(fs, r.managing))
  }

  /** The state after the first `i` shares: these are done, the others are still as
      they were read. */
  lemma {:induction false} SharesDone(acls: Acls, fs: Bcpfs, reals: Exports, i: nat, k: nat)
    requires RealsApart(reals) && i <= |reals| && k < |reals|
    ensures var mid := RunOps(acls, SharesOps(acls, fs, reals[..i]));
            && mid.Keys == acls.Keys
            && (IsDirAcl(acls, reals[k].path) ==>
                  mid[reals[k].path] == if k < i then AfterShare(acls, fs, reals[k]) else acls[reals[k].path])
  {
    if i == 0 {
      NoSharesOps(acls, fs, reals);
    } else {
      var r := reals[i - 1];
      SharesDone(acls, fs, reals, i - 1, k);
      SharesDone(acls, fs, reals, i - 1, i - 1);
      SharesOpsStep(acls, fs, reals, i - 1);
      var mid := RunOps(acls, SharesOps(acls, fs, reals[..i - 1]));
      RunOpsConcat(acls, SharesOps(acls, fs, reals[..i - 1]), ShareOps(acls, fs, r));
      if IsDirAcl(acls, r.path) {
        FaclOpsAt(mid, r.path, AsFacl(fs, r.acl), FsGroups(fs, r.managing), reals[k].path);
        assert k != i - 1 ==> !Within(reals[k].path, r.path);
      } else {
        RunOne(mid, RemoveTree(r.path, []));
      }
    }
  }

  /** Nothing outside the existing shares changes. */
  lemma {:induction false} OutsideShares(acls: Acls, fs: Bcpfs, reals: Exports, i: nat, p: string)
    requires RealsApart(reals) && i <= |reals| && p in acls
    requires forall k :: 0 <= k < |reals| && IsDirAcl(acls, reals[k].path) ==> !Within(p, reals[k].path)
    ensures var mid := RunOps(acls, SharesOps(acls, fs, reals[..i]));
            p in mid && mid[p] == acls[p]
  {
    if i == 0 {
      NoSharesOps(acls, fs, reals);
    } else {
      var r := reals[i - 1];
      OutsideShares(acls, fs, reals, i - 1, p);
      SharesOpsStep(acls, fs, reals, i - 1);
      var mid := RunOps(acls, SharesOps(acls, fs, reals[..i - 1]));
      RunOpsConcat(acls, SharesOps(acls, fs, reals[..i - 1]), ShareOps(acls, fs, r));
      if IsDirAcl(acls, r.path) {
        SharesDone(acls, fs, reals, i - 1, i - 1);
        FaclOpsAt(mid, r.path, AsFacl(fs, r.acl), FsGroups(fs, r.managing), p);
      } else {
        RunOne(mid, RemoveTree(r.path, []));
      }
    }
  }

  ghost function AfterRealShares(acls: Acls, fs: Bcpfs, reals: Exports): Acls {
    RunOps(acls, SharesOps(acls, fs, reals))
  }

  /** EnsureRealShares is exact on every existing share and leaves everything
      outside the shares alone. */
  lemma RealSharesAreExact(acls: Acls, fs: Bcpfs, reals: Exports)
    requires RealsApart(reals)
    ensures var after := AfterRealShares(acls, fs, reals);
            && after.Keys == acls.Keys
            && (forall r :: r in reals && IsDirAcl(acls, r.path) ==>
                  Exact(after[r.path], acls[r.path], AsFacl(fs, r.acl), FsGroups(fs, r.managing)))
            && (forall p :: p in acls && (forall r :: r in reals && IsDirAcl(acls, r.path) ==> !Within(p, r.path)) ==>
                  after[p] == acls[p])
  {
    var after := AfterRealShares(acls, fs, reals);
    assert reals[..|reals|] == reals;
    SameFiles(acls, fs, reals);
    forall r | r in reals && IsDirAcl(acls, r.path)
      ensures Exact(after[r.path], acls[r.path], AsFacl(fs, r.acl), FsGroups(fs, r.managing))
    {
      var k :| 0 <= k < |reals| && reals[k] == r;
      SharesDone(acls, fs, reals, |reals|, k);
      AfterFaclExact(acls[r.path], AsFacl(fs, r.acl), FsGroups(fs, r.managing));
    }
    forall p | p in acls && (forall r :: r in reals && IsDirAcl(acls, r.path) ==> !Within(p, r.path))
      ensures after[p] == acls[p]
    {
      OutsideShares(acls, fs, reals, |reals|, p);
    }
  }

  lemma SameFiles(acls: Acls, fs: Bcpfs, reals: Exports)
    requires RealsApart(reals)
    ensures AfterRealShares(acls, fs, reals).Keys == acls.Keys
  {
    if reals == [] {
    } else {
      assert reals[..|reals|] == reals;
      SharesDone(acls, fs, reals, |reals|, 0);
    }
  }
}
