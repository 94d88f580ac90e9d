/** When a second sharing pass, EnsureRealShares and then EnsureTraversal, finds
    nothing to do. */
module SharingFixpoint {
  import opened Strings
  import opened Paths
  import opened Sharing
  import opened Nesting
  import opened RealShares
  import opened Traversal
  import opened AclStore
  import opened SharingAclApply
  import opened RealSharesExact
  import opened TraversalApply
  import opened FaclText
  import opened GetfaclText

  /** The ACLs after one whole pass. */
  ghost function AfterPass(acls: Acls, fs: Bcpfs, reals: Exports, travs: Exports): Acls {
    var mid := AfterRealShares(acls, fs, reals);
    AfterPairs(mid, Pending(mid, fs, travs))
  }

  /** Neither part of a pass has a command to issue. */
  ghost predicate NothingToDo(acls: Acls, fs: Bcpfs, reals: Exports, travs: Exports) {
    SharesOps(acls, fs, reals) == [] && Pending(acls, fs, travs) == {}
  }

  lemma FsGroupInjective(fs: Bcpfs, g: string, h: string)
    requires fs.FsGroupOrgUnit(g) == fs.FsGroupOrgUnit(h)
    ensures g == h
  {
    PrefixInjective(fs.orgUnitGroupPrefix + "_", g, h);
  }

  lemma InAsFacl(fs: Bcpfs, acl: Acl, g: string, m: Mode)
    ensures Ace(fs.FsGroupOrgUnit(g), m) in AsFacl(fs, acl) <==> Ace(g, m) in acl
    ensures fs.FsGroupOrgUnit(g) in Grantees(AsFacl(fs, acl)) <==> g in Grantees(acl)
  {
    var facl := AsFacl(fs, acl);
    if Ace(g, m) in acl {
      var k :| 0 <= k < |acl| && acl[k] == Ace(g, m);
      assert facl[k] == Ace(fs.FsGroupOrgUnit(g), m);
    }
    if Ace(fs.FsGroupOrgUnit(g), m) in facl {
      var k :| 0 <= k < |facl| && facl[k] == Ace(fs.FsGroupOrgUnit(g), m);
      FsGroupInjective(fs, acl[k].group, g);
    }
    if g in Grantees(acl) {
      var ace :| ace in acl && ace.group == g;
      var k :| 0 <= k < |acl| && acl[k] == ace;
      assert facl[k] in facl;
    }
    if fs.FsGroupOrgUnit(g) in Grantees(facl) {
      var ace :| ace in facl && ace.group == fs.FsGroupOrgUnit(g);
      var k :| 0 <= k < |facl| && facl[k] == ace;
      FsGroupInjective(fs, acl[k].group, g);
      assert acl[k] in acl;
    }
  }

  lemma {:induction false} LastModeAsFacl(fs: Bcpfs, acl: Acl, g: string)
    requires g in Grantees(acl)
    ensures fs.FsGroupOrgUnit(g) in Grantees(AsFacl(fs, acl))
    ensures LastMode(AsFacl(fs, acl), fs.FsGroupOrgUnit(g)) == LastMode(acl, g)
    decreases |acl|
  {
    InAsFacl(fs, acl, g, NoAccess);
    var n := |acl| - 1;
    var facl := AsFacl(fs, acl);
    assert facl[..n] == AsFacl(fs, acl[..n]);
    assert acl == acl[..n] + [acl[n]];
    if acl[n].group != g {
      if facl[n].group == fs.FsGroupOrgUnit(g) { FsGroupInjective(fs, acl[n].group, g); }
      LastModeAsFacl(fs, acl[..n], g);
    }
  }

  // Traversal settles at once

  lemma TraversalSettles(acls: Acls, fs: Bcpfs, travs: Exports)
    ensures Pending(AfterPairs(acls, Pending(acls, fs, travs)), fs, travs) == {}
  {
    var pairs := Pending(acls, fs, travs);
    var after := AfterPairs(acls, pairs);
    forall pair: (string, string) ensures pair !in Pending(after, fs, travs) {
      var (p, g) := pair;
      InPending(after, fs, travs, p, g);
      InPending(acls, fs, travs, p, g);
      if p in acls {
        assert after[p] == AddTraverse(acls[p], GroupsAt(pairs, p));
        assert (p, g) in pairs ==> g in GroupsAt(pairs, p);
      }
    }
  }

  lemma AddTraverseAt(acl: FileAcl, gs: set<string>, g: string)
    ensures var after := AddTraverse(acl, gs);
            && (after.DirAcl? <==> acl.DirAcl?) && after.DefaultNamed() == acl.DefaultNamed()
            && (if g in gs then HasTraverse(after, g)
                else (g in after.access.named <==> g in acl.access.named)
                     && (g in acl.access.named ==> after.access.named[g] == acl.access.named[g]))
  {
  }

  /** The named entries of a file after the traversal pass. */
  lemma TraversedFile(acls: Acls, fs: Bcpfs, travs: Exports, p: string, g: string)
    requires IsDirAcl(acls, p)
    ensures var after := AfterPairs(acls, Pending(acls, fs, travs));
            var G := fs.FsGroupOrgUnit(g);
            && IsDirAcl(after, p) && after[p].DefaultNamed() == acls[p].DefaultNamed()
            && (if HasEntry(travs, p, g) then HasTraverse(after[p], G)
                else (G in after[p].access.named <==> G in acls[p].access.named)
                     && (G in acls[p].access.named ==> after[p].access.named[G] == acls[p].access.named[G]))
  {
    hide Pending, AddTraverse, Bcpfs.FsGroupOrgUnit;
    var pairs := Pending(acls, fs, travs);
    var G := fs.FsGroupOrgUnit(g);
    InPending(acls, fs, travs, p, G);
    assert G in GroupsAt(pairs, p) <==> (p, G) in pairs;
    AddTraverseAt(acls[p], GroupsAt(pairs, p), G);
    if HasEntry(travs, p, g) {
      var t :| t in travs && t.path == p && g in Grantees(t.acl);
      var ace :| ace in t.acl && ace.group == g;
    } else if (p, G) in pairs {
      var t, ace :| t in travs && t.path == p && ace in t.acl && G == fs.FsGroupOrgUnit(ace.group);
      FsGroupInjective(fs, ace.group, g);
    }
  }

  /** Only traversal grantees get a new entry. */
  lemma TraversedNames(acls: Acls, fs: Bcpfs, travs: Exports, p: string, G: string)
    requires IsDirAcl(acls, p)
    requires G in AfterPairs(acls, Pending(acls, fs, travs))[p].access.named && G !in acls[p].access.named
    ensures exists g :: G == fs.FsGroupOrgUnit(g) && HasEntry(travs, p, g)
  {
    var pairs := Pending(acls, fs, travs);
    assert G in GroupsAt(pairs, p);
    InPending(acls, fs, travs, p, G);
    var t, ace :| t in travs && t.path == p && ace in t.acl && G == fs.FsGroupOrgUnit(ace.group);
    assert HasEntry(travs, p, ace.group);
  }

  // Traversal entries on shares

  /** A traversal entry meets a share only at `<orgdir>/<ou>`, when the org unit
      exports itself as a whole, and then for a grantee of that share. */
  lemma EntryOnShare(fs: Bcpfs, shares: Exports, reals: Exports, travs: Exports, r: ExportEntry, g: string)
    requires fs.Valid() && IsRealShares(fs, shares, reals) && IsTraversal(fs, shares, reals, travs)
    requires RealsApart(reals) && Antichain(Elements(PathsOf(shares)))
    requires forall s :: s in shares ==> RelPath(s.path)
    requires r in reals && HasEntry(travs, r.path, g)
    ensures g in Grantees(r.acl)
    ensures exists s :: s in shares && fs.Realpath(s.path) == r.path && |Parts(s.path)| == 1
  {
    assert !RealWants(fs, reals, r.path, g) by { NoRealAbove(fs, reals, r, g); }
    var s :| s in shares && r.path == OuDir(fs, s.path) && g in Grantees(s.acl);
    OuDirParts(fs, s.path);
    assert Merged(fs, shares, r);
    var own :| own in shares && fs.Realpath(own.path) == r.path && own.managing == r.managing;
    PathInPaths(shares, s);
    PathInPaths(shares, own);
    assert Unrelated(own.path, Elements(PathsOf(shares)));
    WholeOrgUnit(fs, own.path, s.path);
    assert ShareGrants(fs, shares, r.path, g);
  }

  lemma WholeOrgUnit(fs: Bcpfs, own: string, p: string)
    requires fs.Valid() && RelPath(own) && RelPath(p)
    requires fs.Realpath(own) == OuDir(fs, p)
    ensures |Parts(own)| == 1 && (p == own || Below(p, own))
  {
    OuDirParts(fs, p);
    RealpathParts(fs, own);
    assert fs.RealParts(own)[0] == fs.orgUnitDir;
    assert Parts(own) == fs.RealParts(own)[1..] == [FirstPart(p)];
    BelowIffParts(p, own);
    assert Parts(p) == [FirstPart(p)] + Parts(p)[1..];
    if |Parts(p)| == 1 { SplitInjective(p, own, '/'); }
  }

  lemma PathInPaths(shares: Exports, s: ExportEntry)
    requires s in shares
    ensures s.path in Elements(PathsOf(shares))
  {
    var i :| 0 <= i < |shares| && shares[i] == s;
    assert PathsOf(shares)[i] == s.path;
  }

  lemma NoRealAbove(fs: Bcpfs, reals: Exports, r: ExportEntry, g: string)
    requires RealsApart(reals) && r in reals
    ensures !RealWants(fs, reals, r.path, g)
  {
    forall r' | r' in reals ensures !Below(r'.path, r.path) {
      var i :| 0 <= i < |reals| && reals[i] == r;
      var j :| 0 <= j < |reals| && reals[j] == r';
      if i == j { BelowIrreflexive(r.path); }
    }
  }

  // The fixpoint

  /** The entry stays as it is wanted: the share does not list another mode for the
      same group later, and no traversal entry replaces it by `--x`. */
  ghost predicate StableEntry(travs: Exports, r: ExportEntry, ace: Ace)
    requires ace in r.acl
  {
    && ace.mode == LastMode(r.acl, ace.group)
    && (HasEntry(travs, r.path, ace.group) ==> ace.mode == TraverseOnly)
  }

  ghost predicate Stable(acls: Acls, reals: Exports, travs: Exports) {
    forall r, ace :: r in reals && IsDirAcl(acls, r.path) && ace in r.acl ==> StableEntry(travs, r, ace)
  }

  /** After a pass, an entry is as wanted if and only if it is stable. */
  lemma EntryAfterPass(acls: Acls, fs: Bcpfs, reals: Exports, travs: Exports, r: ExportEntry, ace: Ace)
    requires RealsApart(reals) && r in reals && IsDirAcl(acls, r.path) && ace in r.acl
    ensures var after := AfterPass(acls, fs, reals, travs);
            && IsDirAcl(after, r.path)
            && (HasBoth(after[r.path], Ace(fs.FsGroupOrgUnit(ace.group), ace.mode)) <==> StableEntry(travs, r, ace))
  {
    var mid := AfterRealShares(acls, fs, reals);
    RealSharesAreExact(acls, fs, reals);
    LastModeAsFacl(fs, r.acl, ace.group);
    assert HasBoth(mid[r.path], Ace(fs.FsGroupOrgUnit(ace.group), LastMode(r.acl, ace.group)));
    TraversedFile(mid, fs, travs, r.path, ace.group);
  }

  /** After a pass, no share has a group to remove. */
  lemma NothingToRemoveAfterPass(
    acls: Acls, fs: Bcpfs, shares: Exports, reals: Exports, travs: Exports, r: ExportEntry)
    requires fs.Valid() && IsRealShares(fs, shares, reals) && IsTraversal(fs, shares, reals, travs)
    requires RealsApart(reals) && Antichain(Elements(PathsOf(shares)))
    requires forall s :: s in shares ==> RelPath(s.path)
    requires r in reals && IsDirAcl(acls, r.path)
    ensures var after := AfterPass(acls, fs, reals, travs);
            IsDirAcl(after, r.path)
            && ToRemove(after[r.path], AsFacl(fs, r.acl), FsGroups(fs, r.managing)) == {}
  {
    var mid, after := AfterRealShares(acls, fs, reals), AfterPass(acls, fs, reals, travs);
    var desired, managing := AsFacl(fs, r.acl), FsGroups(fs, r.managing);
    RealSharesAreExact(acls, fs, reals);
    TraversedFile(mid, fs, travs, r.path, "");
    assert Exact(mid[r.path], acls[r.path], desired, managing);
    forall G | G in after[r.path].access.named || G in after[r.path].DefaultNamed()
      ensures G in Grantees(desired) || G in Elements(managing)
    {
      if G in mid[r.path].access.named || G in mid[r.path].DefaultNamed() {
      } else {
        TraversedNames(mid, fs, travs, r.path, G);
        var g :| G == fs.FsGroupOrgUnit(g) && HasEntry(travs, r.path, g);
        EntryOnShare(fs, shares, reals, travs, r, g);
        InAsFacl(fs, r.acl, g, NoAccess);
      }
    }
  }

  lemma {:induction false} NoSharesOpsIff(acls: Acls, fs: Bcpfs, reals: Exports)
    ensures SharesOps(acls, fs, reals) == [] <==> forall r :: r in reals ==> ShareOps(acls, fs, r) == []
  {
    hide ShareOps;
    if reals != [] {
      var n := |reals| - 1;
      NoSharesOpsIff(acls, fs, reals[..n]);
      assert reals == reals[..n] + [reals[n]];
      assert forall r :: r in reals <==> r in reals[..n] || r == reals[n];
    }
  }

  lemma NoFaclOpsIff(acl: FileAcl, path: string, desired: Acl, additional: seq<string>)
    ensures FaclOps(acl, path, desired, additional) == [] <==>
            !NeedModify(acl, desired) && ToRemove(acl, desired, additional) == {}
  {
  }

  /** A second pass issues no command if and only if every entry of every existing
      share is stable. */
  lemma SharingPassFixpoint(acls: Acls, fs: Bcpfs, shares: Exports, reals: Exports, travs: Exports)
    requires fs.Valid() && IsRealShares(fs, shares, reals) && IsTraversal(fs, shares, reals, travs)
    requires RealsApart(reals) && Antichain(Elements(PathsOf(shares)))
    requires forall s :: s in shares ==> RelPath(s.path)
    ensures NothingToDo(AfterPass(acls, fs, reals, travs), fs, reals, travs) <==> Stable(acls, reals, travs)
  {
    var mid, after := AfterRealShares(acls, fs, reals), AfterPass(acls, fs, reals, travs);
    TraversalSettles(mid, fs, travs);
    NoSharesOpsIff(after, fs, reals);
    SameFiles(acls, fs, reals);
    forall r | r in reals
      ensures ShareOps(after, fs, r) == [] <==>
              (IsDirAcl(acls, r.path) ==> forall ace :: ace in r.acl ==> StableEntry(travs, r, ace))
    {
      ShareSettled(acls, fs, shares, reals, travs, r);
    }
  }

  lemma ShareSettled(acls: Acls, fs: Bcpfs, shares: Exports, reals: Exports, travs: Exports, r: ExportEntry)
    requires fs.Valid() && IsRealShares(fs, shares, reals) && IsTraversal(fs, shares, reals, travs)
    requires RealsApart(reals) && Antichain(Elements(PathsOf(shares)))
    requires forall s :: s in shares ==> RelPath(s.path)
    requires r in reals
    ensures ShareOps(AfterPass(acls, fs, reals, travs), fs, r) == [] <==>
            (IsDirAcl(acls, r.path) ==> forall ace :: ace in r.acl ==> StableEntry(travs, r, ace))
  {
    var after := AfterPass(acls, fs, reals, travs);
    var desired := AsFacl(fs, r.acl);
    SameKinds(acls, fs, reals, travs, r.path);
    if IsDirAcl(acls, r.path) {
      NothingToRemoveAfterPass(acls, fs, shares, reals, travs, r);
      NoFaclOpsIff(after[r.path], r.path, desired, FsGroups(fs, r.managing));
      forall ace | ace in r.acl
        ensures HasBoth(after[r.path], Ace(fs.FsGroupOrgUnit(ace.group), ace.mode)) <==> StableEntry(travs, r, ace)
      {
        EntryAfterPass(acls, fs, reals, travs, r, ace);
      }
      NeedModifyIff(after[r.path], fs, r.acl);
    }
  }

  lemma NeedModifyIff(acl: FileAcl, fs: Bcpfs, entries: Acl)
    ensures !NeedModify(acl, AsFacl(fs, entries)) <==>
            forall ace :: ace in entries ==> HasBoth(acl, Ace(fs.FsGroupOrgUnit(ace.group), ace.mode))
  {
    var facl := AsFacl(fs, entries);
    if !NeedModify(acl, facl) {
      forall ace | ace in entries ensures HasBoth(acl, Ace(fs.FsGroupOrgUnit(ace.group), ace.mode)) {
        InAsFacl(fs, entries, ace.group, ace.mode);
      }
    } else {
      var f :| f in facl && !HasBoth(acl, f);
      var k :| 0 <= k < |facl| && facl[k] == f;
      assert entries[k] in entries;
    }
  }

  /** A pass does not turn a file into a directory or back. */
  lemma SameKinds(acls: Acls, fs: Bcpfs, reals: Exports, travs: Exports, p: string)
    requires RealsApart(reals)
    ensures IsDirAcl(AfterPass(acls, fs, reals, travs), p) <==> IsDirAcl(acls, p)
  {
    SameFiles(acls, fs, reals);
    KindKept(acls, SharesOps(acls, fs, reals), p);
  }

  lemma {:induction false} KindKept(acls: Acls, ops: seq<AclOp>, p: string)
    ensures IsDirAcl(RunOps(acls, ops), p) <==> IsDirAcl(acls, p)
  {
    if ops != [] { KindKept(acls, ops[..|ops| - 1], p); }
  }

  /** If no org unit is exported as a whole, traversal and shares do not meet, so
      the pass is a fixpoint unless a share lists two modes for one group. */
  lemma FixpointWithoutWholeOrgUnits(acls: Acls, fs: Bcpfs, shares: Exports, reals: Exports, travs: Exports)
    requires fs.Valid() && IsRealShares(fs, shares, reals) && IsTraversal(fs, shares, reals, travs)
    requires RealsApart(reals) && Antichain(Elements(PathsOf(shares)))
    requires forall s :: s in shares ==> RelPath(s.path) && |Parts(s.path)| >= 2
    ensures NothingToDo(AfterPass(acls, fs, reals, travs), fs, reals, travs) <==>
            forall r, ace :: r in reals && IsDirAcl(acls, r.path) && ace in r.acl ==> ace.mode == LastMode(r.acl, ace.group)
  {
    SharingPassFixpoint(acls, fs, shares, reals, travs);
    forall r, g | r in reals ensures !HasEntry(travs, r.path, g) {
      if HasEntry(travs, r.path, g) { EntryOnShare(fs, shares, reals, travs, r, g); }
    }
  }

  // Reading back

  /** The mask after `setfacl -n` added an entry. */
  function MaskAfter(part: AclPart): Mode {
    if part.mask.Some? then part.mask.value else part.group
  }

  lemma PartReadableIff(part: AclPart, entries: Acl, gone: set<string>)
    requires ReadablePart(part) && part.Complete() && entries != [] && gone !! Grantees(entries)
    ensures ReadablePart(DropNamed(SetAllNamed(part, entries), gone)) <==>
            forall g :: g in Grantees(entries) ==> LastMode(entries, g).Within(MaskAfter(part))
  {
    var after := DropNamed(SetAllNamed(part, entries), gone);
    SetAllNamedAt(part, entries, "");
    forall g
      ensures g in Grantees(entries) ==> g in after.named && after.named[g] == LastMode(entries, g)
      ensures g !in Grantees(entries) && g in after.named ==> g in part.named && after.named[g] == part.named[g]
    {
      SetAllNamedAt(part, entries, g);
    }
  }

  /** Masks are not recalculated, and getfacl marks what a mask cuts in a way that
      the parser rejects.  So after a share was applied its ACL can be read again
      if and only if the masks of the directory cover all granted modes. */
  lemma RereadableIff(acl: FileAcl, desired: Acl, additional: seq<string>)
    requires acl.DirAcl? && Readable(acl) && acl.Complete()
    ensures Readable(AfterFacl(acl, desired, additional)) <==> MasksCoverShare(acl, desired)
  {
    var gone := ToRemove(acl, desired, additional);
    if NeedModify(acl, desired) {
      PartReadableIff(acl.access, desired, gone);
      PartReadableIff(DefaultBase(acl), desired, gone);
      PartReadableIff(acl.access, desired, {});
      PartReadableIff(DefaultBase(acl), desired, {});
      DropNothing(SetAllNamed(acl.access, desired));
      DropNothing(SetAllNamed(DefaultBase(acl), desired));
    } else {
      forall g | g in Grantees(desired) ensures HasBoth(acl, Ace(g, LastMode(desired, g))) {
        ModifiedEntry(acl, desired, g);
      }
    }
  }

  lemma DropNothing(part: AclPart)
    ensures DropNamed(part, {}) == part
  {
    assert part.named - {} == part.named;
  }

  /** The masks cover the modes that a share sets on its own directory. */
  ghost predicate MasksCoverShare(acl: FileAcl, desired: Acl) {
    forall g :: g in Grantees(desired) ==>
      && LastMode(desired, g).Within(MaskAfter(acl.access))
      && LastMode(desired, g).Within(MaskAfter(DefaultBase(acl)))
  }

  /** A read-write share in a directory whose mask is `r-x`: what getfacl prints after this
      run is rejected by the parser in the next one. */
  lemma CutShareStopsNextRun(acl: FileAcl, g: string, path: string, b: Block)
    requires acl == var rx := Mode(true, false, true);
                    var part := AclPart(NoAccess, map[], map["o" := rx], Some(rx));
                    DirAcl(part, Some(part))
    requires GroupNameOk(g) && '\n' !in path
    requires PrintsFiles([b], map[path := AfterFacl(acl, [Ace(g, Mode(true, true, true))], ["o"])], [path])
    ensures Readable(acl) && ParseAll(Paragraphs(TrimSpace(Printed([b])))) == Failed
  {
    var desired := [Ace(g, Mode(true, true, true))];
    assert desired[0] in desired && g in Grantees(desired) && LastMode(desired, g) == Mode(true, true, true);
    var after := AfterFacl(acl, desired, ["o"]);
    RereadableIff(acl, desired, ["o"]);
    assert !LastMode(desired, g).Within(MaskAfter(acl.access));
    SharedNames(acl, g);
    hide ParseAll, Paragraphs, TrimSpace, Printed, PrintsFiles, NamesOk, AfterFacl;
    PrintedFilesMean([b], map[path := after], [path]);
    assert [path][0] == path;
  }

  lemma SharedNames(acl: FileAcl, g: string)
    requires acl == var rx := Mode(true, false, true);
                    var part := AclPart(NoAccess, map[], map["o" := rx], Some(rx));
                    DirAcl(part, Some(part))
    requires GroupNameOk(g)
    ensures NamesOk(AfterFacl(acl, [Ace(g, Mode(true, true, true))], ["o"]))
  {
    var desired := [Ace(g, Mode(true, true, true))];
    assert desired[..0] == [];
    assert SetAllNamed(acl.access, desired) == SetNamed(acl.access, g, Mode(true, true, true));
    assert GroupNameOk("o");
  }

  // Two passes in a row

  /** A pass ends without error: the shares can be read before it, and the traversal
      directories after the shares were written. */
  ghost predicate PassOk(acls: Acls, fs: Bcpfs, reals: Exports, travs: Exports) {
    AllReadable(acls, reals) && AllReadable(AfterRealShares(acls, fs, reals), travs)
  }

  /** The sharing pass of an apply run. */
  method SharingPass(disk: AclDisk, fs: Bcpfs, reals: Exports, travs: Exports) returns (ok: bool, ghost ops: seq<AclOp>)
    requires forall p :: p in disk.acls ==> NamesOk(disk.acls[p])
    requires NamesFit(fs, reals) && NamesFit(fs, travs)
    modifies disk
    ensures ok <==> PassOk(old(disk.acls), fs, reals, travs)
    ensures ok ==> disk.acls == AfterPass(old(disk.acls), fs, reals, travs)
    ensures disk.trace == old(disk.trace) + ops
    ensures ok ==> (ops == [] <==> NothingToDo(old(disk.acls), fs, reals, travs))
  {
    hide AfterRealShares, AllReadable, NamesOk, Pending, AfterPairs, Batches;
    ghost var a0, t0 := disk.acls, disk.trace;
    assert t0 + [] == t0;
    ok := EnsureRealShares(disk, fs, reals);
    if !ok { return false, []; }
    RealSharesRun(a0, fs, reals);
    ops := SharesOps(a0, fs, reals);
    ghost var first := ops;
    ghost var more;
    ok, more := EnsureTraversal(disk, fs, travs);
    AppendThree(t0, first, more);
    ops := first + more;
    if !ok { return false, ops; }
    NoBatchesIff(more, Pending(AfterRealShares(a0, fs, reals), fs, travs));
    return true, ops;
  }

  /** The state after the commands for the shares, and the names in it. */
  lemma RealSharesRun(acls: Acls, fs: Bcpfs, reals: Exports)
    requires (forall p :: p in acls ==> NamesOk(acls[p])) && NamesFit(fs, reals)
    ensures AfterRealShares(acls, fs, reals) == RunOps(acls, SharesOps(acls, fs, reals))
    ensures forall p :: p in AfterRealShares(acls, fs, reals) ==> NamesOk(AfterRealShares(acls, fs, reals)[p])
    ensures SharesOps(acls, fs, reals) == [] ==> AfterRealShares(acls, fs, reals) == acls
  {
    hide NamesOk;
    SharesOpsNames(acls, fs, reals);
    NamesKept(acls, SharesOps(acls, fs, reals));
  }

  ghost predicate OpNamesOk(op: AclOp) {
    op.ModifyTree? ==> DesiredOk(op.entries)
  }

  lemma {:induction false} SharesOpsNames(acls: Acls, fs: Bcpfs, reals: Exports)
    requires NamesFit(fs, reals)
    ensures forall op :: op in SharesOps(acls, fs, reals) ==> OpNamesOk(op) && !op.Traverse?
  {
    if reals != [] {
      var n := |reals| - 1;
      assert reals[n] in reals;
      SharesOpsNames(acls, fs, reals[..n]);
    }
  }

  lemma {:induction false} NamesKept(acls: Acls, ops: seq<AclOp>)
    requires forall p :: p in acls ==> NamesOk(acls[p])
    requires forall op :: op in ops ==> OpNamesOk(op) && !op.Traverse?
    ensures forall p :: p in RunOps(acls, ops) ==> NamesOk(RunOps(acls, ops)[p])
  {
    hide NamesOk, OpNamesOk;
    if ops != [] {
      var n := |ops| - 1;
      assert ops == ops[..n] + [ops[n]];
      NamesKept(acls, ops[..n]);
      OpKeepsNames(RunOps(acls, ops[..n]), ops[n]);
    }
  }

  lemma OpKeepsNames(acls: Acls, op: AclOp)
    requires (forall p :: p in acls ==> NamesOk(acls[p])) && OpNamesOk(op) && !op.Traverse?
    ensures forall p :: p in ApplyOp(acls, op) ==> NamesOk(ApplyOp(acls, op)[p])
  {
    hide PartNamesOk, DesiredOk;
    forall p | p in acls ensures NamesOk(ApplyOp(acls, op)[p]) {
      match op
      case ModifyTree(_, entries) =>
        WithoutXNames(entries);
        BaseNames(acls[p]);
        SetNames(acls[p].access, entries);
        SetNames(acls[p].access, WithoutXAcl(entries));
        SetNames(DefaultBase(acls[p]), entries);
      case RemoveTree(_, groups) =>
        DropNames(acls[p].access, Elements(groups));
        if acls[p].DirAcl? && acls[p].dflt.Some? { DropNames(acls[p].dflt.value, Elements(groups)); }
    }
  }

  lemma BaseNames(acl: FileAcl)
    requires NamesOk(acl)
    ensures PartNamesOk(DefaultBase(acl))
  {
  }

  lemma {:induction false} WithoutXNames(entries: Acl)
    requires DesiredOk(entries)
    ensures DesiredOk(WithoutXAcl(entries))
  {
    hide GroupNameOk;
    if entries != [] {
      var n := |entries| - 1;
      assert entries == entries[..n] + [entries[n]];
      assert entries[n] in entries;
      WithoutXNames(entries[..n]);
    }
  }

  lemma {:induction false} SetNames(part: AclPart, entries: Acl)
    requires PartNamesOk(part) && DesiredOk(entries)
    ensures PartNamesOk(SetAllNamed(part, entries))
  {
    hide GroupNameOk;
    if entries != [] {
      var n := |entries| - 1;
      assert entries == entries[..n] + [entries[n]];
      assert entries[n] in entries;
      SetNames(part, entries[..n]);
    }
  }

  lemma DropNames(part: AclPart, gs: set<string>)
    requires PartNamesOk(part)
    ensures PartNamesOk(DropNamed(part, gs))
  {
  }

  // Reading what the first pass wrote

  lemma {:induction false} SetFrame(part: AclPart, entries: Acl)
    ensures MaskAfter(SetAllNamed(part, entries)) == MaskAfter(part)
    ensures part.Complete() ==> SetAllNamed(part, entries).Complete()
  {
    if entries != [] { SetFrame(part, entries[..|entries| - 1]); }
  }

  /** Commands keep what the masks are, or become with the first entry. */
  lemma AfterFaclFrame(acl: FileAcl, desired: Acl, additional: seq<string>)
    requires acl.DirAcl? && acl.Complete()
    ensures var after := AfterFacl(acl, desired, additional);
            after.DirAcl? && after.Complete() && MaskAfter(after.access) == MaskAfter(acl.access)
  {
    SetFrame(acl.access, desired);
    SetFrame(DefaultBase(acl), desired);
  }

  /** Adding `--x` entries to a readable ACL. */
  lemma AddTraverseReadable(acl: FileAcl, gs: set<string>)
    requires acl.DirAcl? && Readable(acl) && acl.Complete()
    ensures Readable(AddTraverse(acl, gs)) <==> (gs != {} ==> TraverseOnly.Within(MaskAfter(acl.access)))
  {
    if gs != {} {
      var after := AddTraverse(acl, gs);
      var g :| g in gs;
      assert g in after.access.named && after.access.named[g] == TraverseOnly;
    }
  }

  /** The masks of all existing shares and traversal directories cover the modes that the
      pass sets there. */
  ghost predicate MasksCover(acls: Acls, fs: Bcpfs, reals: Exports, travs: Exports) {
    && (forall r :: r in reals && IsDirAcl(acls, r.path) ==> MasksCoverShare(acls[r.path], AsFacl(fs, r.acl)))
    && (forall t :: t in travs && IsDirAcl(acls, t.path) && t.acl != [] ==> TraverseOnly.Within(MaskAfter(acls[t.path].access)))
  }

  /** What the compiler guarantees about the three lists. */
  ghost predicate Lists3(fs: Bcpfs, shares: Exports, reals: Exports, travs: Exports) {
    && fs.Valid() && IsRealShares(fs, shares, reals) && IsTraversal(fs, shares, reals, travs)
    && RealsApart(reals) && Antichain(Elements(PathsOf(shares)))
    && forall s :: s in shares ==> RelPath(s.path)
  }

  lemma RealDeep(fs: Bcpfs, shares: Exports, reals: Exports, r: ExportEntry)
    requires fs.Valid() && IsRealShares(fs, shares, reals) && r in reals && forall s :: s in shares ==> RelPath(s.path)
    ensures |Parts(r.path)| >= 2
  {
    assert Merged(fs, shares, r);
    var s :| s in shares && fs.Realpath(s.path) == r.path && s.managing == r.managing;
    RealpathParts(fs, s.path);
  }

  /** A traversal directory lies strictly below no share. */
  lemma TraversalOutside(fs: Bcpfs, shares: Exports, reals: Exports, travs: Exports, t: ExportEntry, r: ExportEntry)
    requires Lists3(fs, shares, reals, travs) && t in travs && r in reals
    ensures !Below(t.path, r.path)
  {
    RealDeep(fs, shares, reals, r);
    BelowIffParts(t.path, r.path);
    if s :| s in shares && t.path == OuDir(fs, s.path) {
      OuDirParts(fs, s.path);
    } else {
      var q :| q in reals && OnTheWay(fs, q.path, t.path);
      NotWithin(reals, q, r);
      if Below(t.path, r.path) { BelowTransitive(q.path, t.path, r.path); }
    }
  }

  lemma NotWithin(reals: Exports, q: ExportEntry, r: ExportEntry)
    requires RealsApart(reals) && q in reals && r in reals
    ensures !Below(q.path, r.path)
  {
    var i :| 0 <= i < |reals| && reals[i] == q;
    var j :| 0 <= j < |reals| && reals[j] == r;
    if i == j { BelowIrreflexive(q.path); }
  }

  /** The directory of a share after the commands for the shares. */
  lemma MidAtShare(acls: Acls, fs: Bcpfs, reals: Exports, r: ExportEntry)
    requires RealsApart(reals) && r in reals && IsDirAcl(acls, r.path)
    ensures var mid := AfterRealShares(acls, fs, reals);
            r.path in mid && mid[r.path] == AfterFacl(acls[r.path], AsFacl(fs, r.acl), FsGroups(fs, r.managing))
  {
    var k :| 0 <= k < |reals| && reals[k] == r;
    SharesDone(acls, fs, reals, |reals|, k);
    assert reals[..|reals|] == reals;
  }

  /** A traversal directory after the commands for the shares: as before, or a share. */
  lemma MidAtTraversal(acls: Acls, fs: Bcpfs, shares: Exports, reals: Exports, travs: Exports, t: ExportEntry)
    requires Lists3(fs, shares, reals, travs) && t in travs && IsDirAcl(acls, t.path) && acls[t.path].Complete()
    ensures var mid := AfterRealShares(acls, fs, reals);
            && IsDirAcl(mid, t.path) && mid[t.path].Complete()
            && MaskAfter(mid[t.path].access) == MaskAfter(acls[t.path].access)
  {
    hide IsRealShares, IsTraversal, AfterRealShares, AfterFacl, FileAcl.Complete;
    if r :| r in reals && r.path == t.path {
      MidAtShare(acls, fs, reals, r);
      AfterFaclFrame(acls[r.path], AsFacl(fs, r.acl), FsGroups(fs, r.managing));
    } else {
      forall r | r in reals && IsDirAcl(acls, r.path) ensures !Within(t.path, r.path) {
        TraversalOutside(fs, shares, reals, travs, t, r);
      }
      RealSharesAreExact(acls, fs, reals);
    }
  }

  lemma GroupsAtPath(acls: Acls, fs: Bcpfs, travs: Exports, p: string)
    ensures (forall t :: t in travs && t.path == p ==> t.acl == []) ==> GroupsAt(Pending(acls, fs, travs), p) == {}
  {
    forall g ensures (p, g) in Pending(acls, fs, travs) <==>
                     && IsDirAcl(acls, p) && !HasTraverse(acls[p], g)
                     && exists t, ace :: t in travs && t.path == p && ace in t.acl && g == fs.FsGroupOrgUnit(ace.group)
    {
      InPending(acls, fs, travs, p, g);
    }
  }

  /** A readable directory stays readable under the traversal commands if and only if its
      mask covers `--x`, where it gets or has such an entry. */
  lemma TraversalReadable(acls: Acls, fs: Bcpfs, travs: Exports, t: ExportEntry)
    requires NoDuplicates(PathsOf(travs)) && t in travs && t.acl != []
    requires IsDirAcl(acls, t.path) && Readable(acls[t.path]) && acls[t.path].Complete()
    ensures var after := AfterPairs(acls, Pending(acls, fs, travs));
            Readable(after[t.path]) <==> TraverseOnly.Within(MaskAfter(acls[t.path].access))
  {
    hide Readable, FileAcl.Complete;
    var gs := GroupsAt(Pending(acls, fs, travs), t.path);
    AddTraverseReadable(acls[t.path], gs);
    if gs == {} {
      var ace := t.acl[0];
      var G := fs.FsGroupOrgUnit(ace.group);
      InPending(acls, fs, travs, t.path, G);
      assert ace in t.acl;
      assert !HasTraverse(acls[t.path], G) ==> G in gs;
      HeldWithinMask(acls[t.path], G);
    }
  }

  lemma HeldWithinMask(acl: FileAcl, g: string)
    requires Readable(acl) && acl.Complete() && g in acl.access.named
    ensures acl.access.named[g].Within(MaskAfter(acl.access))
  {
  }

  lemma Untouched(acls: Acls, fs: Bcpfs, travs: Exports, p: string)
    requires p in acls && forall t :: t in travs && t.path == p ==> t.acl == []
    ensures AfterPairs(acls, Pending(acls, fs, travs))[p] == acls[p]
  {
    GroupsAtPath(acls, fs, travs, p);
  }

  /** After a pass without error, all its directories can be read again if and only if the
      masks cover what it sets. */
  lemma RereadablePass(acls: Acls, fs: Bcpfs, shares: Exports, reals: Exports, travs: Exports)
    requires Lists3(fs, shares, reals, travs) && PassOk(acls, fs, reals, travs)
    requires forall p :: p in acls ==> acls[p].Complete()
    ensures var after := AfterPass(acls, fs, reals, travs);
            AllReadable(after, reals) && AllReadable(after, travs) <==> MasksCover(acls, fs, reals, travs)
  {
    hide IsRealShares, AfterRealShares, Readable, FileAcl.Complete, MasksCoverShare, Pending, AfterPairs, AfterFacl;
    var mid, after := AfterRealShares(acls, fs, reals), AfterPass(acls, fs, reals, travs);
    forall t | t in travs && IsDirAcl(acls, t.path)
      ensures IsDirAcl(after, t.path)
      ensures Readable(after[t.path]) <==> (t.acl != [] ==> TraverseOnly.Within(MaskAfter(acls[t.path].access)))
    {
      SameKinds(acls, fs, reals, travs, t.path);
      TraversalDirReadable(acls, fs, shares, reals, travs, t);
    }
    forall r | r in reals && IsDirAcl(acls, r.path)
      ensures IsDirAcl(after, r.path)
      ensures (forall t :: t in travs ==> t.path != r.path) ==>
                (Readable(after[r.path]) <==> MasksCoverShare(acls[r.path], AsFacl(fs, r.acl)))
      ensures (exists t :: t in travs && t.path == r.path) ==> MasksCoverShare(acls[r.path], AsFacl(fs, r.acl))
    {
      SameKinds(acls, fs, reals, travs, r.path);
      ShareDirReadable(acls, fs, reals, travs, r);
    }
    forall p | IsDirAcl(after, p) ensures IsDirAcl(acls, p) {
      SameKinds(acls, fs, reals, travs, p);
    }
  }

  lemma TraversalDirReadable(acls: Acls, fs: Bcpfs, shares: Exports, reals: Exports, travs: Exports, t: ExportEntry)
    requires Lists3(fs, shares, reals, travs) && PassOk(acls, fs, reals, travs)
    requires forall p :: p in acls ==> acls[p].Complete()
    requires t in travs && IsDirAcl(acls, t.path) && IsDirAcl(AfterPass(acls, fs, reals, travs), t.path)
    ensures Readable(AfterPass(acls, fs, reals, travs)[t.path]) <==>
            (t.acl != [] ==> TraverseOnly.Within(MaskAfter(acls[t.path].access)))
  {
    hide IsRealShares, AfterRealShares, Readable, FileAcl.Complete, Pending, AfterPairs;
    var mid := AfterRealShares(acls, fs, reals);
    MidAtTraversal(acls, fs, shares, reals, travs, t);
    if t.acl != [] {
      TraversalReadable(mid, fs, travs, t);
    } else {
      OnlyOne(travs, t);
      Untouched(mid, fs, travs, t.path);
    }
  }

  lemma OnlyOne(travs: Exports, t: ExportEntry)
    requires NoDuplicates(PathsOf(travs)) && t in travs
    ensures forall u :: u in travs && u.path == t.path ==> u == t
  {
    hide PathsOf;
    forall u | u in travs && u.path == t.path ensures u == t {
      var i :| 0 <= i < |travs| && travs[i] == t;
      var j :| 0 <= j < |travs| && travs[j] == u;
      assert PathsOf(travs)[i] == PathsOf(travs)[j];
    }
  }

  lemma ShareDirReadable(acls: Acls, fs: Bcpfs, reals: Exports, travs: Exports, r: ExportEntry)
    requires RealsApart(reals) && PassOk(acls, fs, reals, travs) && (forall p :: p in acls ==> acls[p].Complete())
    requires r in reals && IsDirAcl(acls, r.path) && IsDirAcl(AfterPass(acls, fs, reals, travs), r.path)
    ensures (forall t :: t in travs ==> t.path != r.path) ==>
              (Readable(AfterPass(acls, fs, reals, travs)[r.path]) <==> MasksCoverShare(acls[r.path], AsFacl(fs, r.acl)))
    ensures (exists t :: t in travs && t.path == r.path) ==> MasksCoverShare(acls[r.path], AsFacl(fs, r.acl))
  {
    hide AfterRealShares, Readable, FileAcl.Complete, MasksCoverShare, Pending, AfterPairs, AfterFacl;
    var mid := AfterRealShares(acls, fs, reals);
    MidAtShare(acls, fs, reals, r);
    RereadableIff(acls[r.path], AsFacl(fs, r.acl), FsGroups(fs, r.managing));
    AfterFaclFrame(acls[r.path], AsFacl(fs, r.acl), FsGroups(fs, r.managing));
    if forall t :: t in travs ==> t.path != r.path {
      Untouched(mid, fs, travs, r.path);
    }
  }

  /** After a pass without error, a second pass ends without error and without a command if
      and only if every entry of every existing share is stable and the masks cover what
      the pass sets. */
  lemma SecondPassIdle(acls: Acls, fs: Bcpfs, shares: Exports, reals: Exports, travs: Exports)
    requires Lists3(fs, shares, reals, travs) && PassOk(acls, fs, reals, travs)
    requires forall p :: p in acls ==> acls[p].Complete()
    ensures var after := AfterPass(acls, fs, reals, travs);
            PassOk(after, fs, reals, travs) && NothingToDo(after, fs, reals, travs) <==>
            Stable(acls, reals, travs) && MasksCover(acls, fs, reals, travs)
  {
    hide IsRealShares, IsTraversal, AllReadable, MasksCover, Stable, Pending, AfterPairs, SharesOps;
    var after := AfterPass(acls, fs, reals, travs);
    SharingPassFixpoint(acls, fs, shares, reals, travs);
    RereadablePass(acls, fs, shares, reals, travs);
    if NothingToDo(after, fs, reals, travs) { NoCommands(after, fs, reals); }
  }

  lemma NoCommands(acls: Acls, fs: Bcpfs, reals: Exports)
    requires SharesOps(acls, fs, reals) == []
    ensures AfterRealShares(acls, fs, reals) == acls
  {
  }

  /** Two passes in a row on a disk. */
  method TwoPasses(disk: AclDisk, fs: Bcpfs, ghost shares: Exports, reals: Exports, travs: Exports)
    returns (ok1: bool, ok2: bool, ghost first: seq<AclOp>, ghost second: seq<AclOp>)
    requires (forall p :: p in disk.acls ==> NamesOk(disk.acls[p]) && disk.acls[p].Complete())
    requires NamesFit(fs, reals) && NamesFit(fs, travs) && Lists3(fs, shares, reals, travs)
    modifies disk
    ensures ok1 <==> PassOk(old(disk.acls), fs, reals, travs)
    ensures disk.trace == old(disk.trace) + first + second
    ensures ok1 ==> (ok2 && second == [] <==>
                       Stable(old(disk.acls), reals, travs) && MasksCover(old(disk.acls), fs, reals, travs))
  {
    hide PassOk, Lists3, Stable, MasksCover, NothingToDo, NamesOk, AfterPass, FileAcl.Complete;
    ghost var a0, t0 := disk.acls, disk.trace;
    ok1, first := SharingPass(disk, fs, reals, travs);
    ok2, second := false, [];
    assert t0 + first + [] == t0 + first;
    if !ok1 { return; }
    SecondPassIdle(a0, fs, shares, reals, travs);
    PassNames(a0, fs, reals, travs);
    ok2, second := SharingPass(disk, fs, reals, travs);
  }

  lemma PassNames(acls: Acls, fs: Bcpfs, reals: Exports, travs: Exports)
    requires (forall p :: p in acls ==> NamesOk(acls[p])) && NamesFit(fs, reals) && NamesFit(fs, travs)
    ensures forall p :: p in AfterPass(acls, fs, reals, travs) ==> NamesOk(AfterPass(acls, fs, reals, travs)[p])
  {
    hide GroupNameOk, AfterRealShares, Pending;
    var mid := AfterRealShares(acls, fs, reals);
    RealSharesRun(acls, fs, reals);
    forall p | p in mid ensures NamesOk(AddTraverse(mid[p], GroupsAt(Pending(mid, fs, travs), p))) {
      forall g | g in GroupsAt(Pending(mid, fs, travs), p) ensures GroupNameOk(g) {
        InPending(mid, fs, travs, p, g);
        var t, ace :| t in travs && t.path == p && ace in t.acl && g == fs.FsGroupOrgUnit(ace.group);
        InAsFacl(fs, t.acl, ace.group, ace.mode);
        assert DesiredOk(AsFacl(fs, t.acl));
      }
    }
  }

  // An org unit exported as a whole

  lemma WholeRealpath(fs: Bcpfs, p: string)
    requires fs.Valid() && RelPath(p) && |Parts(p)| == 1
    ensures fs.Realpath(p) == OuDir(fs, p)
  {
    SplitInjective(p, FirstPart(p), '/') by {
      SplitPlain(FirstPart(p), '/');
      assert Parts(p) == [FirstPart(p)];
    }
  }

  lemma RealOf(fs: Bcpfs, shares: Exports, reals: Exports, s: ExportEntry) returns (r: ExportEntry)
    requires IsRealShares(fs, shares, reals) && s in shares
    ensures r in reals && r.path == fs.Realpath(s.path)
  {
    var i :| 0 <= i < |shares| && shares[i] == s;
    assert Realpaths(fs, shares)[i] == fs.Realpath(s.path);
    assert fs.Realpath(s.path) in Elements(PathsOf(reals));
    var k :| 0 <= k < |reals| && PathsOf(reals)[k] == fs.Realpath(s.path);
    r := reals[k];
  }

  /** If an existing org unit directory is shared as a whole for reading or writing, the
      pass leaves something to do: it replaces the entry of the share by `--x`. */
  lemma WholeOrgUnitUnsettled(
    acls: Acls, fs: Bcpfs, shares: Exports, reals: Exports, travs: Exports, s: ExportEntry, ace: Ace, bit: Bit)
    requires Lists3(fs, shares, reals, travs)
    requires s in shares && |Parts(s.path)| == 1 && ace in s.acl && bit != X && ace.mode.Has(bit)
    requires IsDirAcl(acls, fs.Realpath(s.path))
    ensures !NothingToDo(AfterPass(acls, fs, reals, travs), fs, reals, travs)
  {
    hide NothingToDo, AfterPass, RealsApart, Antichain;
    SharingPassFixpoint(acls, fs, shares, reals, travs);
    var r := RealOf(fs, shares, reals, s);
    assert Merged(fs, shares, r);
    assert Allows(s.acl, ace.group, bit);
    assert ShareAllows(fs, shares, r.path, ace.group, bit);
    var kept :| kept in r.acl && kept.group == ace.group && kept.mode.Has(bit);
    WholeRealpath(fs, s.path);
    assert ShareWants(fs, shares, r.path, ace.group);
    assert HasEntry(travs, r.path, kept.group);
    assert !StableEntry(travs, r, kept);
  }

  /** For example: `lab` opens its whole directory to `guests` for reading. */
  lemma WholeOrgUnitExample(acls: Acls, fs: Bcpfs, reals: Exports, travs: Exports)
    requires Lists3(fs, [ExportEntry("lab", [Ace("guests", Mode(true, false, true))], [OuGroup("lab")])], reals, travs)
    requires IsDirAcl(acls, fs.Realpath("lab"))
    ensures !NothingToDo(AfterPass(acls, fs, reals, travs), fs, reals, travs)
  {
    hide NothingToDo, AfterPass, Lists3;
    var s := ExportEntry("lab", [Ace("guests", Mode(true, false, true))], [OuGroup("lab")]);
    assert s in [s] && s.acl[0] in s.acl;
    assert '/' !in "lab";
    SplitPlain("lab", '/');
    WholeOrgUnitUnsettled(acls, fs, [s], reals, travs, s, s.acl[0], R);
  }

  // What is on disk after a pass

  /** After a pass, an existing share's directory gives a grantee the mode that its ACL
      lists last or, where the org unit is shared as a whole, `--x`; so it gives the mode
      of an entry if and only if that covers it. */
  lemma GrantOnDisk(acls: Acls, fs: Bcpfs, reals: Exports, travs: Exports, r: ExportEntry, ace: Ace)
    requires RealsApart(reals) && r in reals && IsDirAcl(acls, r.path) && ace in r.acl
    ensures var after, G := AfterPass(acls, fs, reals, travs), fs.FsGroupOrgUnit(ace.group);
            && IsDirAcl(after, r.path) && G in after[r.path].access.named
            && after[r.path].access.named[G] ==
                 (if HasEntry(travs, r.path, ace.group) then TraverseOnly else LastMode(r.acl, ace.group))
            && (!HasEntry(travs, r.path, ace.group) ==>
                  (ace.mode.Within(after[r.path].access.named[G]) <==> ace.mode.Within(LastMode(r.acl, ace.group))))
  {
    var mid := AfterRealShares(acls, fs, reals);
    RealSharesAreExact(acls, fs, reals);
    LastModeAsFacl(fs, r.acl, ace.group);
    assert HasBoth(mid[r.path], Ace(fs.FsGroupOrgUnit(ace.group), LastMode(r.acl, ace.group)));
    TraversedFile(mid, fs, travs, r.path, ace.group);
  }

  ghost predicate EachListsOnce(fs: Bcpfs, exps: Exports, rp: string) {
    forall e :: e in exps && fs.Realpath(e.path) == rp ==> ListsEachOnce(e.acl)
  }

  /** The entry on disk gives a grantee exactly what is imported for the realpath. */
  ghost predicate GivesImported(fs: Bcpfs, exps: Exports, imps: ImportFilter, after: Acls, rp: string, g: string) {
    var G := fs.FsGroupOrgUnit(g);
    && IsDirAcl(after, rp) && G in after[rp].access.named
    && forall bit :: after[rp].access.named[G].Has(bit) <==> ImportedExportAllows(fs, exps, imps, rp, g, bit)
  }

  /** So it does, where the org unit is not shared as a whole, if every export of the
      realpath lists each group once. */
  lemma UnionOnDisk(acls: Acls, fs: Bcpfs, exps: Exports, imps: ImportFilter, reals: Exports, travs: Exports, r: ExportEntry, g: string)
    requires RealsApart(reals) && IsRealShares(fs, Selected(exps, imps), reals) && r in reals && g in Grantees(r.acl)
    requires IsDirAcl(acls, r.path) && !HasEntry(travs, r.path, g) && EachListsOnce(fs, exps, r.path)
    ensures GivesImported(fs, exps, imps, AfterPass(acls, fs, reals, travs), r.path, g)
  {
    hide AfterPass, HasEntry, IsRealShares, ImportedExportAllows, Bcpfs.Realpath, Bcpfs.FsGroupOrgUnit, LastMode, RealsApart;
    var listed :| listed in r.acl && listed.group == g;
    GrantOnDisk(acls, fs, reals, travs, r, listed);
    ImportedModes(fs, exps, imps, reals, r, g);
  }

  /** For example, a share lists a group with `r--` and then with `-w-`: the compiled ACL
      grants reading, and the entry on disk does not. */
  lemma TwoModesExample(acls: Acls, fs: Bcpfs, reals: Exports, travs: Exports, r: ExportEntry, g: string)
    requires RealsApart(reals) && r in reals && IsDirAcl(acls, r.path) && !HasEntry(travs, r.path, g)
    requires r.acl == [Ace(g, Mode(true, false, false)), Ace(g, Mode(false, true, false))]
    ensures Allows(r.acl, g, R)
    ensures var after, G := AfterPass(acls, fs, reals, travs), fs.FsGroupOrgUnit(g);
            && IsDirAcl(after, r.path) && G in after[r.path].access.named
            && after[r.path].access.named[G] == Mode(false, true, false)
  {
    hide AfterPass, HasEntry;
    var first, last := r.acl[0], r.acl[1];
    assert first in r.acl && last in r.acl && first.mode.Has(R);
    GrantOnDisk(acls, fs, reals, travs, r, last);
  }

  /** Every existing directory with a traversal entry has it on disk. */
  lemma TraversalOnDisk(acls: Acls, fs: Bcpfs, reals: Exports, travs: Exports, q: string, g: string)
    requires RealsApart(reals) && IsDirAcl(acls, q) && HasEntry(travs, q, g)
    ensures var after := AfterPass(acls, fs, reals, travs);
            IsDirAcl(after, q) && HasTraverse(after[q], fs.FsGroupOrgUnit(g))
  {
    var mid := AfterRealShares(acls, fs, reals);
    SameFiles(acls, fs, reals);
    KindKept(acls, SharesOps(acls, fs, reals), q);
    TraversedFile(mid, fs, travs, q, g);
  }

  /** What an entry gives in effect: the mask cuts it. */
  function Effective(part: AclPart, g: string): Mode
    requires g in part.named
  {
    part.named[g].And(MaskAfter(part))
  }

  /** A pass keeps the masks of its shares and traversal directories. */
  lemma MaskStays(acls: Acls, fs: Bcpfs, shares: Exports, reals: Exports, travs: Exports, p: string)
    requires Lists3(fs, shares, reals, travs) && IsDirAcl(acls, p) && acls[p].Complete()
    requires p in PathsOf(reals) || p in PathsOf(travs)
    ensures var after := AfterPass(acls, fs, reals, travs);
            IsDirAcl(after, p) && MaskAfter(after[p].access) == MaskAfter(acls[p].access)
  {
    hide IsRealShares, IsTraversal, AfterRealShares, AfterFacl, FileAcl.Complete;
    var mid := AfterRealShares(acls, fs, reals);
    if p in PathsOf(reals) {
      var k :| 0 <= k < |reals| && PathsOf(reals)[k] == p;
      MidAtShare(acls, fs, reals, reals[k]);
      AfterFaclFrame(acls[p], AsFacl(fs, reals[k].acl), FsGroups(fs, reals[k].managing));
    } else {
      var k :| 0 <= k < |travs| && PathsOf(travs)[k] == p;
      MidAtTraversal(acls, fs, shares, reals, travs, travs[k]);
    }
    AddTraverseMask(mid[p], GroupsAt(Pending(mid, fs, travs), p));
  }

  lemma AddTraverseMask(acl: FileAcl, gs: set<string>)
    ensures MaskAfter(AddTraverse(acl, gs).access) == MaskAfter(acl.access)
  {
  }
}
