/** bcpsharing.Compile: the checks in their order, and what holds of the result. */
module Compiler {
  import opened Strings
  import opened Paths
  import opened Sharing
  import opened AclSlices
  import opened Nesting
  import opened RealShares
  import opened Traversal
  import opened ShareTrees
  import opened AclStore
  import opened RealSharesExact
  import opened Reachability
  import opened ExportPaths

  datatype NamingAction = Allow | Deny | PassOn

  /** A naming rule; its anchored regular expression is any predicate on paths. */
  datatype NamingRule = NamingRule(matches: string -> bool, action: NamingAction) {
    function Apply(path: string): NamingAction {
      if matches(path) then action else PassOn
    }
  }

  type NamingPolicy = seq<NamingRule>

  /** The first rule that decides about the path allows it. */
  ghost predicate PolicyAllows(pol: NamingPolicy, path: string) {
    exists i :: 0 <= i < |pol| && pol[i].Apply(path) == Allow && forall j :: 0 <= j < i ==> pol[j].Apply(path) == PassOn
  }

  method CheckExportPath(path: string, pol: NamingPolicy) returns (ok: bool)
    ensures ok <==> PolicyAllows(pol, path)
  {
    for i := 0 to |pol|
      invariant forall j :: 0 <= j < i ==> pol[j].Apply(path) == PassOn
    {
      match pol[i].Apply(path) {
        case Allow => return true;
        case Deny => return false;
        case PassOn =>
      }
    }
    return false;
  }

  /** No grant to the org unit of the path or to the facility of the service. */
  predicate ScopeOk(fs: Bcpfs, e: ExportEntry) {
    && FirstPart(e.path) !in Grantees(e.acl)
    && (fs.IsServicePath(e.path) ==>
          fs.facilityByService[Parts(e.path)[1]] + "-facility" !in Grantees(e.acl))
  }

  /** One configured export with its parsed ACL. */
  datatype ExportConfig = ExportConfig(path: string, acl: Slice)

  /** compileExports on parsed ACLs: the path is stored without outer slashes, but the
      managing groups are those of the path as it was written. */
  method CompileExports(fs: Bcpfs, cfg: seq<ExportConfig>) returns (r: Result<SliceExports>)
    ensures r.Ok? <==> forall c :: c in cfg ==> fs.ManagingGroupsOfPath(c.path).Ok?
    ensures r.Ok? ==> |r.value| == |cfg| && forall i :: 0 <= i < |cfg| ==>
              && r.value[i].path == TrimSlashes(cfg[i].path) && r.value[i].acl == cfg[i].acl
              && Ok(r.value[i].managing) == fs.ManagingGroupsOfPath(cfg[i].path)
    ensures r.Ok? && "" !in fs.facilityDirs ==> forall i :: 0 <= i < |cfg| && RelPath(r.value[i].path) ==>
              (fs.ManagingGroupsOfPath(r.value[i].path) == Ok(r.value[i].managing) <==> SlashesHarmless(fs, cfg[i].path))
  {
    var exps: SliceExports := [];
    for i := 0 to |cfg|
      invariant |exps| == i
      invariant forall k :: 0 <= k < i ==>
                  && exps[k].path == TrimSlashes(cfg[k].path) && exps[k].acl == cfg[k].acl
                  && Ok(exps[k].managing) == fs.ManagingGroupsOfPath(cfg[k].path)
    {
      assert cfg[i] in cfg;
      match fs.ManagingGroupsOfPath(cfg[i].path) {
        case Err(e) => return Err(e);
        case Ok(managing) => exps := exps + [SliceEntry(TrimSlashes(cfg[i].path), cfg[i].acl, managing)];
      }
    }
    forall k | 0 <= k < |cfg| && RelPath(exps[k].path) && "" !in fs.facilityDirs
      ensures fs.ManagingGroupsOfPath(exps[k].path) == Ok(exps[k].managing) <==> SlashesHarmless(fs, cfg[k].path)
    {
      StoredManagingIff(fs, cfg[k].path);
    }
    return Ok(exps);
  }

  /** Whichever share's managing groups a merge keeps, they are those of all shares
      of the realpath. */
  lemma MergedManaging(fs: Bcpfs, shares: Exports, r: ExportEntry, s: ExportEntry)
    requires fs.Valid() && Merged(fs, shares, r)
    requires forall s :: s in shares ==> RelPath(s.path) && fs.ManagingGroupsOfPath(s.path) == Ok(s.managing)
    requires s in shares && fs.Realpath(s.path) == r.path
    ensures s.managing == r.managing
  {
    var kept :| kept in shares && fs.Realpath(kept.path) == r.path && kept.managing == r.managing;
    ManagingGroupsOfRealpath(fs, s.path, kept.path);
  }

  /** Every export carries the managing groups of its own path. */
  ghost predicate OwnManaging(fs: Bcpfs, exps: Exports) {
    forall e :: e in exps ==> RelPath(e.path) && fs.ManagingGroupsOfPath(e.path) == Ok(e.managing)
  }

  lemma SelectedManaging(fs: Bcpfs, exps: Exports, imps: ImportFilter)
    requires OwnManaging(fs, exps)
    ensures OwnManaging(fs, Selected(exps, imps))
  {
    hide Selected, AcceptedAcl, Bcpfs.ManagingGroupsOfPath;
    forall s | s in Selected(exps, imps) ensures RelPath(s.path) && fs.ManagingGroupsOfPath(s.path) == Ok(s.managing) {
      InSelected(s, exps, imps);
      var e :| e in exps && s in SelectedExport(e, imps);
    }
  }

  /** Then a real share carries the managing groups of every export with its realpath, also
      of those that are not imported. */
  lemma RealsManaging(fs: Bcpfs, exps: Exports, imps: ImportFilter, reals: Exports, r: ExportEntry, e: ExportEntry)
    requires fs.Valid() && OwnManaging(fs, exps) && IsRealShares(fs, Selected(exps, imps), reals)
    requires r in reals && e in exps && fs.Realpath(e.path) == r.path
    ensures r.managing == e.managing
  {
    hide Selected, Bcpfs.ManagingGroupsOfPath, Bcpfs.Realpath, ShareGrants, ShareAllows;
    var shares := Selected(exps, imps);
    SelectedManaging(fs, exps, imps);
    assert Merged(fs, shares, r);
    var s :| s in shares && fs.Realpath(s.path) == r.path && s.managing == r.managing;
    MergedManaging(fs, shares, r, s);
    ManagingGroupsOfRealpath(fs, s.path, e.path);
  }

  ghost predicate ExportsOk(fs: Bcpfs, exps: Exports, pol: NamingPolicy) {
    && (forall e :: e in exps ==> PolicyAllows(pol, e.path) && ScopeOk(fs, e))
    && NoDuplicates(PathsOf(exps)) && Antichain(Elements(PathsOf(exps)))
    && Antichain(Elements(Realpaths(fs, exps)))
  }

  datatype CompiledSharing = CompiledSharing(
    shares: SliceExports, realShares: SliceExports, traversal: SliceExports, shareTrees: seq<ShareTree>)

  method CheckPathsAndScopes(fs: Bcpfs, exps: Exports, pol: NamingPolicy) returns (ok: bool)
    ensures ok <==> forall e :: e in exps ==> PolicyAllows(pol, e.path) && ScopeOk(fs, e)
  {
    for i := 0 to |exps|
      invariant forall k :: 0 <= k < i ==> PolicyAllows(pol, exps[k].path)
    {
      assert exps[i] in exps;
      var fine := CheckExportPath(exps[i].path, pol);
      if !fine { return false; }
    }
    for i := 0 to |exps|
      invariant forall k :: 0 <= k < i ==> ScopeOk(fs, exps[k])
    {
      assert exps[i] in exps;
      var fine := CheckExportEntryAclScopes(fs, exps[i]);
      if !fine { return false; }
    }
    forall e | e in exps ensures PolicyAllows(pol, e.path) && ScopeOk(fs, e) {
      var k :| 0 <= k < |exps| && exps[k] == e;
    }
    return true;
  }

  /** The sharing compiler succeeds exactly on exports that the naming policy
      allows, that stay out of the managed ACLs and that are not nested.  It writes
      to none of the ACLs that it is given. */
  method Compile(fs: Bcpfs, exps: SliceExports, imps: ImportFilter, pol: NamingPolicy) returns (r: Option<CompiledSharing>)
    requires AllOk(exps) && fs.Valid() && ShareNamesClean(Views(exps))
    ensures r.Some? <==> ExportsOk(fs, Views(exps), pol)
    ensures r.Some? ==> AllOk(r.value.shares) && AllOk(r.value.realShares) && AllOk(r.value.traversal)
    ensures r.Some? ==>
              && Views(r.value.shares) == Selected(Views(exps), imps)
              && Compiled(fs, Views(exps), imps, Views(r.value.realShares), Views(r.value.traversal), r.value.shareTrees)
    ensures forall i :: 0 <= i < |exps| ==> exps[i].acl.arr[..] == old(exps[i].acl.arr[..])
  {
    hide ExportsOk, Selected, Realpaths, IsRealShares, IsTraversal, IsShareTrees, Views, Antichain, ShareNamesClean;
    ghost var es := Views(exps);
    label Start:
    var fine := CheckExports(fs, Views(exps), pol);
    SameViews@Start(exps);
    if !fine { return None; }
    ExportsMean(fs, es, pol);
    var shares := SelectImportedExports(exps, imps);
    SameViews@Start(exps);
    SelectedClean(fs, es, imps);
    ghost var ss := Views(shares);
    label Selected:
    var reals := CompileRealShares(fs, shares);
    SameViews@Selected(shares);
    RealsClean(fs, ss, Views(reals));
    assert forall k :: 0 <= k < |reals| ==> Views(reals)[k] in Views(reals);
    var travs := CompileTraversal(fs, shares, reals);
    SameViews@Selected(shares);
    label Compiled:
    var trees := CompileShareTrees(fs, Views(shares));
    SameViews@Compiled(shares);
    SameViews@Compiled(reals);
    SameViews@Compiled(travs);
    SameViews@Start(exps);
    return Some(CompiledSharing(shares, reals, travs, trees));
  }

  /** What the parsing of one configured export gives. */
  ghost predicate ConfigOk(c: ExportConfig)
    reads c.acl.arr
  {
    c.acl.Ok() && RelPath(TrimSlashes(c.path)) && forall g :: g in Grantees(c.acl.View()) ==> CleanName(g)
  }

  /** The exports that are stored for a configuration. */
  ghost predicate Stores(fs: Bcpfs, cfg: seq<ExportConfig>, exps: Exports)
    reads set i | 0 <= i < |cfg| :: cfg[i].acl.arr
  {
    |exps| == |cfg| && forall i :: 0 <= i < |cfg| ==>
      && cfg[i].acl.Ok() && exps[i].path == TrimSlashes(cfg[i].path) && exps[i].acl == cfg[i].acl.View()
      && Ok(exps[i].managing) == fs.ManagingGroupsOfPath(cfg[i].path)
  }

  ghost predicate AllHarmless(fs: Bcpfs, cfg: seq<ExportConfig>) {
    "" !in fs.facilityDirs && forall i :: 0 <= i < |cfg| ==> SlashesHarmless(fs, cfg[i].path)
  }

  /** A real share carries the managing groups of every export with its realpath. */
  ghost predicate RealsManaged(fs: Bcpfs, exps: Exports, reals: Exports) {
    forall e, r :: e in exps && r in reals && r.path == fs.Realpath(e.path) ==> Ok(r.managing) == fs.ManagingGroupsOfPath(e.path)
  }

  lemma StoredClean(cfg: seq<ExportConfig>, exps: Exports)
    requires (forall i :: 0 <= i < |cfg| ==> ConfigOk(cfg[i])) && |exps| == |cfg|
    requires forall i :: 0 <= i < |cfg| ==>
               cfg[i].acl.Ok() && exps[i].path == TrimSlashes(cfg[i].path) && exps[i].acl == cfg[i].acl.View()
    ensures ShareNamesClean(exps)
  {
    hide TrimSlashes;
    forall s | s in exps ensures RelPath(s.path) && forall g :: g in Grantees(s.acl) ==> CleanName(g) {
      var i :| 0 <= i < |exps| && exps[i] == s;
      assert ConfigOk(cfg[i]);
    }
  }

  lemma StoredOwnManaging(fs: Bcpfs, cfg: seq<ExportConfig>, exps: Exports)
    requires |exps| == |cfg| && AllHarmless(fs, cfg) && ShareNamesClean(exps)
    requires forall i :: 0 <= i < |cfg| ==>
               && exps[i].path == TrimSlashes(cfg[i].path)
               && Ok(exps[i].managing) == fs.ManagingGroupsOfPath(cfg[i].path)
    ensures OwnManaging(fs, exps)
  {
    hide TrimSlashes, Bcpfs.ManagingGroupsOfPath, SlashesHarmless;
    forall e | e in exps ensures RelPath(e.path) && fs.ManagingGroupsOfPath(e.path) == Ok(e.managing) {
      var i :| 0 <= i < |exps| && exps[i] == e;
      StoredManagingIff(fs, cfg[i].path);
    }
  }

  lemma AllManaging(
    fs: Bcpfs, exps: Exports, imps: ImportFilter, reals: Exports, travs: Exports, trees: seq<ShareTree>)
    requires fs.Valid() && OwnManaging(fs, exps) && Compiled(fs, exps, imps, reals, travs, trees)
    ensures RealsManaged(fs, exps, reals)
  {
    hide Bcpfs.Realpath, Bcpfs.ManagingGroupsOfPath, IsRealShares, IsTraversal, IsShareTrees, Selected;
    forall e, r | e in exps && r in reals && r.path == fs.Realpath(e.path) ensures Ok(r.managing) == fs.ManagingGroupsOfPath(e.path) {
      RealsManaging(fs, exps, imps, reals, r, e);
    }
  }

  lemma ViewsStore(fs: Bcpfs, cfg: seq<ExportConfig>, stored: SliceExports, exps: Exports)
    requires AllOk(stored) && Views(stored) == exps && |stored| == |cfg|
    requires forall i :: 0 <= i < |cfg| ==>
               && stored[i].path == TrimSlashes(cfg[i].path) && stored[i].acl == cfg[i].acl
               && Ok(stored[i].managing) == fs.ManagingGroupsOfPath(cfg[i].path)
    ensures Stores(fs, cfg, exps)
  {
    hide TrimSlashes, Bcpfs.ManagingGroupsOfPath;
    assert forall i :: 0 <= i < |cfg| ==> exps[i] == stored[i].View();
  }

  /** The whole compiler: if outer slashes do no harm, every real share carries the managing
      groups of each stored path with its realpath. */
  method CompileConfig(fs: Bcpfs, cfg: seq<ExportConfig>, imps: ImportFilter, pol: NamingPolicy)
    returns (r: Option<CompiledSharing>, ghost exps: Exports)
    requires fs.Valid() && forall i :: 0 <= i < |cfg| ==> ConfigOk(cfg[i])
    ensures forall i :: 0 <= i < |cfg| ==> cfg[i].acl.arr[..] == old(cfg[i].acl.arr[..])
    ensures r.Some? <==> (forall c :: c in cfg ==> fs.ManagingGroupsOfPath(c.path).Ok?) && ExportsOk(fs, exps, pol)
    ensures (forall c :: c in cfg ==> fs.ManagingGroupsOfPath(c.path).Ok?) ==> Stores(fs, cfg, exps)
    ensures r.Some? ==>
              && AllOk(r.value.realShares) && AllOk(r.value.traversal)
              && Compiled(fs, exps, imps, Views(r.value.realShares), Views(r.value.traversal), r.value.shareTrees)
    ensures r.Some? && AllHarmless(fs, cfg) ==> RealsManaged(fs, exps, Views(r.value.realShares))
  {
    hide ExportsOk, Compiled, SlashesHarmless, Bcpfs.ManagingGroupsOfPath, Bcpfs.Realpath, OwnManaging, ShareNamesClean, TrimSlashes, RelPath,
         Grantees, CleanName, AllHarmless, RealsManaged, Stores;
    exps := [];
    var stored := CompileExports(fs, cfg);
    if stored.Err? { return None, []; }
    exps := Views(stored.value);
    StoredClean(cfg, exps);
    label Start:
    r := Compile(fs, stored.value, imps, pol);
    SameViews@Start(stored.value);
    ViewsStore(fs, cfg, stored.value, exps);
    if r.Some? && AllHarmless(fs, cfg) {
      StoredOwnManaging(fs, cfg, exps);
      AllManaging(fs, exps, imps, Views(r.value.realShares), Views(r.value.traversal), r.value.shareTrees);
    }
  }

  method CheckExports(fs: Bcpfs, exps: Exports, pol: NamingPolicy) returns (ok: bool)
    requires fs.Valid() && ShareNamesClean(exps)
    ensures ok <==> ExportsOk(fs, exps, pol)
  {
    hide Antichain, Realpaths;
    var fine := CheckPathsAndScopes(fs, exps, pol);
    if !fine { return false; }
    ExportPathsClean(fs, exps);
    fine := CheckNesting(PathsOf(exps), false);
    if !fine { return false; }
    fine := CheckNesting(Realpaths(fs, exps), true);
    return fine;
  }

  lemma ExportsMean(fs: Bcpfs, exps: Exports, pol: NamingPolicy)
    requires ExportsOk(fs, exps, pol)
    ensures NoDuplicates(PathsOf(exps)) && Antichain(Elements(PathsOf(exps)))
  {
  }

  lemma ExportPathsClean(fs: Bcpfs, exps: Exports)
    requires fs.Valid() && ShareNamesClean(exps)
    ensures forall i :: 0 <= i < |exps| ==> RelPath(PathsOf(exps)[i]) && RelPath(Realpaths(fs, exps)[i])
  {
    forall i | 0 <= i < |exps| ensures RelPath(PathsOf(exps)[i]) && RelPath(Realpaths(fs, exps)[i]) {
      assert exps[i] in exps;
      RealpathParts(fs, exps[i].path);
    }
  }

  lemma SelectedClean(fs: Bcpfs, exps: Exports, imps: ImportFilter)
    requires ShareNamesClean(exps) && NoDuplicates(PathsOf(exps)) && Antichain(Elements(PathsOf(exps)))
    ensures ShareNamesClean(Selected(exps, imps))
    ensures NoDuplicates(PathsOf(Selected(exps, imps))) && Antichain(Elements(PathsOf(Selected(exps, imps))))
  {
    SelectedPaths(exps, imps);
    AntichainSubset(Elements(PathsOf(Selected(exps, imps))), Elements(PathsOf(exps)));
    forall s | s in Selected(exps, imps) ensures RelPath(s.path) && forall g :: g in Grantees(s.acl) ==> CleanName(g) {
      InSelected(s, exps, imps);
      var e :| e in exps && s in SelectedExport(e, imps);
      forall g | g in Grantees(s.acl) ensures g in Grantees(e.acl) {
        var ace :| ace in s.acl && ace.group == g;
        InAccepted(ace, e.acl, e.path, imps);
      }
    }
  }

  lemma RealsClean(fs: Bcpfs, shares: Exports, reals: Exports)
    requires fs.Valid() && ShareNamesClean(shares) && IsRealShares(fs, shares, reals)
    ensures forall r :: r in reals ==> RelPath(r.path)
  {
    forall r | r in reals ensures RelPath(r.path) {
      assert Merged(fs, shares, r);
      var s :| s in shares && fs.Realpath(s.path) == r.path && s.managing == r.managing;
      RealpathParts(fs, s.path);
    }
  }

  /** The real shares of compiled exports lie apart, so recursive commands for one
      never reach another. */
  lemma RealsLieApart(fs: Bcpfs, exps: Exports, imps: ImportFilter, reals: Exports)
    requires Antichain(Elements(Realpaths(fs, exps))) && IsRealShares(fs, Selected(exps, imps), reals)
    ensures RealsApart(reals)
  {
    hide IsRealShares, Realpaths, Antichain;
    var all := Elements(Realpaths(fs, exps));
    forall i | 0 <= i < |reals| ensures reals[i].path in all && Unrelated(reals[i].path, all) {
      RealPathExported(fs, exps, imps, reals, i);
    }
    DistinctReals(fs, exps, imps, reals);
    forall i, j | 0 <= i < |reals| && 0 <= j < |reals| && i != j ensures !Within(reals[i].path, reals[j].path) {
      assert i < j ==> PathsOf(reals)[i] != PathsOf(reals)[j];
      assert j < i ==> PathsOf(reals)[j] != PathsOf(reals)[i];
    }
  }

  lemma DistinctReals(fs: Bcpfs, exps: Exports, imps: ImportFilter, reals: Exports)
    requires IsRealShares(fs, Selected(exps, imps), reals)
    ensures NoDuplicates(PathsOf(reals))
  {
  }

  lemma RealPathExported(fs: Bcpfs, exps: Exports, imps: ImportFilter, reals: Exports, i: nat)
    requires Antichain(Elements(Realpaths(fs, exps))) && IsRealShares(fs, Selected(exps, imps), reals) && i < |reals|
    ensures reals[i].path in Elements(Realpaths(fs, exps))
    ensures Unrelated(reals[i].path, Elements(Realpaths(fs, exps)))
  {
    assert Merged(fs, Selected(exps, imps), reals[i]);
    var s :| s in Selected(exps, imps) && fs.Realpath(s.path) == reals[i].path && s.managing == reals[i].managing;
    InSelected(s, exps, imps);
    var e :| e in exps && s in SelectedExport(e, imps);
    var k :| 0 <= k < |exps| && exps[k] == e;
    assert Realpaths(fs, exps)[k] == reals[i].path;
  }
}
