/** What EnsureRealShares does below the directory of a share: the commands recurse. */
module SharesBelow {
  import opened Strings
  import opened Paths
  import opened Sharing
  import opened RealShares
  import opened AclStore
  import opened SharingAclApply
  import opened RealSharesExact

  /** A desired entry is missing or different in the share's own directory. */
  ghost predicate Misses(share: FileAcl, desired: Acl) {
    exists ace :: ace in desired && !(
      && ace.group in share.access.named && share.access.named[ace.group] == ace.mode
      && ace.group in share.DefaultNamed() && share.DefaultNamed()[ace.group] == ace.mode)
  }

  /** A group with an entry in the share's own directory that is neither desired nor
      managing. */
  ghost predicate Unwanted(share: FileAcl, desired: Acl, additional: seq<string>, g: string) {
    (g in share.access.named || g in share.DefaultNamed()) && g !in Grantees(desired) && g !in additional
  }

  /** The entry of a group in one part of an ACL: nothing where it is unwanted at the share,
      the wanted mode where the share was incomplete, and else what was there. */
  ghost predicate EntryBelow(
    before: map<string, Mode>, after: map<string, Mode>, share: FileAcl, desired: Acl, additional: seq<string>, g: string, wanted: Mode)
  {
    if Unwanted(share, desired, additional, g) then g !in after
    else if g in Grantees(desired) && Misses(share, desired) then g in after && after[g] == wanted
    else (g in after <==> g in before) && (g in before ==> after[g] == before[g])
  }

  function WithoutExecute(m: Mode): Mode {
    Mode(m.r, m.w, false)
  }

  ghost function Wanted(desired: Acl, g: string): Mode {
    if g in Grantees(desired) then LastMode(desired, g) else NoAccess
  }

  /** A command adds a mask only where there is none. */
  ghost predicate MaskBelow(before: AclPart, after: AclPart, written: bool) {
    && after.group == before.group && after.users == before.users
    && after.mask == if written && before.mask.None? then Some(before.group) else before.mask
  }

  /** What becomes of the ACL of a directory or regular file below a share. */
  ghost predicate BelowShare(before: FileAcl, after: FileAcl, share: FileAcl, desired: Acl, additional: seq<string>) {
    var written := Misses(share, desired);
    match before
    case RegAcl(access) =>
      && after.RegAcl? && MaskBelow(access, after.access, written)
      && forall g ::
           EntryBelow(access.named, after.access.named, share, desired, additional, g, WithoutExecute(Wanted(desired, g)))
    case DirAcl(access, dflt) =>
      && after.DirAcl? && MaskBelow(access, after.access, written)
      && (forall g :: EntryBelow(access.named, after.access.named, share, desired, additional, g, Wanted(desired, g)))
      && (after.dflt.Some? <==> dflt.Some? || written)
      && (after.dflt.Some? ==>
            && MaskBelow(if dflt.Some? then dflt.value else AclPart(access.group, map[], map[], None), after.dflt.value, written)
            && forall g ::
                 EntryBelow(before.DefaultNamed(), after.dflt.value.named, share, desired, additional, g, Wanted(desired, g)))
  }

  // One share

  function AfterBelow(acl: FileAcl, share: FileAcl, desired: Acl, additional: seq<string>): FileAcl {
    var a := if NeedModify(share, desired) then ModifyFile(acl, desired) else acl;
    if ToRemove(share, desired, additional) != {} then RemoveFromFile(a, ToRemove(share, desired, additional)) else a
  }

  lemma UnwantedMeans(share: FileAcl, desired: Acl, additional: seq<string>, g: string)
    ensures g in ToRemove(share, desired, additional) <==> Unwanted(share, desired, additional, g)
    ensures NeedModify(share, desired) <==> Misses(share, desired)
  {
  }

  lemma {:induction false} WithoutXEntries(entries: Acl, g: string)
    ensures Grantees(WithoutXAcl(entries)) == Grantees(entries)
    ensures g in Grantees(entries) ==> LastMode(WithoutXAcl(entries), g) == WithoutExecute(LastMode(entries, g))
  {
    hide Grantees;
    if entries == [] {
      NoGrantees();
    } else {
      var n := |entries| - 1;
      WithoutXEntries(entries[..n], g);
      assert entries == entries[..n] + [entries[n]];
      AllowsAppend(entries[..n], entries[n]);
      var last := Ace(entries[n].group, entries[n].mode.WithoutX());
      AllowsAppend(WithoutXAcl(entries[..n]), last);
      var w := WithoutXAcl(entries);
      assert w == WithoutXAcl(entries[..n]) + [last];
      assert w[..n] == WithoutXAcl(entries[..n]);
    }
  }

  /** Setting and then dropping entries of one part. */
  lemma PartBelow(
    part: AclPart, entries: Acl, written: bool, gone: set<string>, share: FileAcl, desired: Acl, additional: seq<string>, g: string, wanted: Mode)
    requires written <==> Misses(share, desired)
    requires Grantees(entries) == Grantees(desired) && (g in Grantees(desired) ==> LastMode(entries, g) == wanted)
    requires g in gone <==> Unwanted(share, desired, additional, g)
    ensures var a := if written then SetAllNamed(part, entries) else part;
            var after := DropNamed(a, gone);
            EntryBelow(part.named, after.named, share, desired, additional, g, wanted)
  {
    hide Grantees, Misses, LastMode;
    SetAllNamedAt(part, entries, g);
  }

  lemma PartMask(part: AclPart, entries: Acl, written: bool, gone: set<string>)
    requires written ==> entries != []
    ensures MaskBelow(part, DropNamed(if written then SetAllNamed(part, entries) else part, gone), written)
  {
    SetAllNamedAt(part, entries, "");
  }

  lemma DropNobody(part: AclPart)
    ensures DropNamed(part, {}) == part
  {
    assert part.named - {} == part.named;
  }

  lemma MissesSome(share: FileAcl, desired: Acl)
    requires Misses(share, desired)
    ensures desired != [] && WithoutXAcl(desired) != []
  {
  }

  lemma RegBelow(acl: FileAcl, share: FileAcl, desired: Acl, additional: seq<string>)
    requires acl.RegAcl?
    ensures BelowShare(acl, AfterBelow(acl, share, desired, additional), share, desired, additional)
  {
    hide Misses, Unwanted, EntryBelow, MaskBelow, Grantees, NeedModify, ToRemove, LastMode;
    var gone, written := ToRemove(share, desired, additional), NeedModify(share, desired);
    UnwantedMeans(share, desired, additional, "");
    if written { MissesSome(share, desired); }
    var entries := WithoutXAcl(desired);
    var a := if written then SetAllNamed(acl.access, entries) else acl.access;
    DropNobody(a);
    PartMask(acl.access, entries, written, gone);
    forall g ensures EntryBelow(acl.access.named, DropNamed(a, gone).named, share, desired, additional, g, WithoutExecute(Wanted(desired, g))) {
      UnwantedMeans(share, desired, additional, g);
      WithoutXEntries(desired, g);
      PartBelow(acl.access, entries, written, gone, share, desired, additional, g, WithoutExecute(Wanted(desired, g)));
    }
  }

  lemma DirBelow(acl: FileAcl, share: FileAcl, desired: Acl, additional: seq<string>)
    requires acl.DirAcl?
    ensures BelowShare(acl, AfterBelow(acl, share, desired, additional), share, desired, additional)
  {
    hide Misses, Unwanted, EntryBelow, MaskBelow, Grantees, NeedModify, ToRemove, LastMode;
    var gone, written := ToRemove(share, desired, additional), NeedModify(share, desired);
    UnwantedMeans(share, desired, additional, "");
    if written { MissesSome(share, desired); }
    var base := DefaultBase(acl);
    var a := if written then SetAllNamed(acl.access, desired) else acl.access;
    var d := if written then SetAllNamed(base, desired) else base;
    DropNobody(a);
    DropNobody(d);
    PartMask(acl.access, desired, written, gone);
    PartMask(base, desired, written, gone);
    forall g
      ensures EntryBelow(acl.access.named, DropNamed(a, gone).named, share, desired, additional, g, Wanted(desired, g))
      ensures EntryBelow(base.named, DropNamed(d, gone).named, share, desired, additional, g, Wanted(desired, g))
    {
      UnwantedMeans(share, desired, additional, g);
      PartBelow(acl.access, desired, written, gone, share, desired, additional, g, Wanted(desired, g));
      PartBelow(base, desired, written, gone, share, desired, additional, g, Wanted(desired, g));
    }
  }

  lemma BelowMeans(acl: FileAcl, share: FileAcl, desired: Acl, additional: seq<string>)
    ensures BelowShare(acl, AfterBelow(acl, share, desired, additional), share, desired, additional)
  {
    hide BelowShare, AfterBelow;
    if acl.DirAcl? { DirBelow(acl, share, desired, additional); } else { RegBelow(acl, share, desired, additional); }
  }

  lemma FaclOpsBelow(acls: Acls, share: FileAcl, path: string, desired: Acl, additional: seq<string>, p: string)
    requires p in acls && Below(p, path)
    ensures var after := RunOps(acls, FaclOps(share, path, desired, additional));
            p in after && after[p] == AfterBelow(acls[p], share, desired, additional)
  {
    var first := if NeedModify(share, desired) then [ModifyTree(path, desired)] else [];
    var gone := ToRemove(share, desired, additional);
    var second := if gone != {} then [RemoveTree(path, SortedSet(gone))] else [];
    hide NeedModify, ToRemove, ModifyFile, RemoveFromFile;
    RunOpsConcat(acls, first, second);
    RunOne(acls, ModifyTree(path, desired));
    RunOne(RunOps(acls, first), RemoveTree(path, SortedSet(gone)));
  }

  // All shares

  lemma OneShareAbove(reals: Exports, i: nat, k: nat, p: string)
    requires RealsApart(reals) && i < |reals| && k < |reals| && i != k && Below(p, reals[k].path)
    ensures !Within(p, reals[i].path)
  {
    assert !Within(reals[i].path, reals[k].path) && !Within(reals[k].path, reals[i].path);
    if Below(p, reals[i].path) { AncestorsComparable(reals[i].path, reals[k].path, p); }
  }

  lemma {:induction false} BelowDone(acls: Acls, fs: Bcpfs, reals: Exports, i: nat, k: nat, p: string)
    requires RealsApart(reals) && i <= |reals| && k < |reals| && IsDirAcl(acls, reals[k].path)
    requires p in acls && Below(p, reals[k].path)
    ensures var mid := RunOps(acls, SharesOps(acls, fs, reals[..i]));
            p in mid && mid[p] == if k < i
              then AfterBelow(acls[p], acls[reals[k].path], AsFacl(fs, reals[k].acl), FsGroups(fs, reals[k].managing))
              else acls[p]
  {
    hide AfterBelow, FaclOps, RunOps, RealsApart, Bcpfs.FsGroup;
    if i == 0 {
      NoSharesOps(acls, fs, reals);
      RunOne(acls, RemoveTree("", []));
    } else {
      var r := reals[i - 1];
      BelowDone(acls, fs, reals, i - 1, k, p);
      SharesDone(acls, fs, reals, i - 1, i - 1);
      SharesOpsStep(acls, fs, reals, i - 1);
      var mid := RunOps(acls, SharesOps(acls, fs, reals[..i - 1]));
      RunOpsConcat(acls, SharesOps(acls, fs, reals[..i - 1]), ShareOps(acls, fs, r));
      RunOne(mid, RemoveTree(r.path, []));
      if IsDirAcl(acls, r.path) {
        if k == i - 1 {
          FaclOpsBelow(mid, acls[r.path], r.path, AsFacl(fs, r.acl), FsGroups(fs, r.managing), p);
        } else {
          OneShareAbove(reals, i - 1, k, p);
          FaclOpsAt(mid, r.path, AsFacl(fs, r.acl), FsGroups(fs, r.managing), p);
        }
      }
    }
  }

  /** After EnsureRealShares on shares that lie apart, an existing share and everything below
      it has the wanted entries, in the form for directories or for files, if the share's
      directory was incomplete; it has lost the groups that were removed there; and nothing
      else of it has changed. */
  lemma SharesReachBelow(acls: Acls, fs: Bcpfs, reals: Exports, r: ExportEntry, p: string)
    requires RealsApart(reals) && r in reals && IsDirAcl(acls, r.path) && p in acls && (p == r.path || Below(p, r.path))
    ensures var after := AfterRealShares(acls, fs, reals);
            p in after && BelowShare(acls[p], after[p], acls[r.path], AsFacl(fs, r.acl), FsGroups(fs, r.managing))
  {
    hide AfterBelow, BelowShare, RealsApart, RunOps, SharesOps;
    var k :| 0 <= k < |reals| && reals[k] == r;
    assert reals[..|reals|] == reals;
    if p == r.path {
      SharesDone(acls, fs, reals, |reals|, k);
      OwnIsBelow(acls[p], AsFacl(fs, r.acl), FsGroups(fs, r.managing));
    } else {
      BelowDone(acls, fs, reals, |reals|, k, p);
    }
    BelowMeans(acls[p], acls[r.path], AsFacl(fs, r.acl), FsGroups(fs, r.managing));
  }

  lemma OwnIsBelow(acl: FileAcl, desired: Acl, additional: seq<string>)
    ensures AfterFacl(acl, desired, additional) == AfterBelow(acl, acl, desired, additional)
  {
  }
}
