/** compileTraversal: the `--x` ACLs that let grantees walk to what is shared. */
module Traversal {
  import opened Strings
  import opened Paths
  import opened Sharing
  import opened AclSlices
  import opened RealShares

  /** NewTraversalAclWithGroups on the groups of an ACL. */
  function TraversalAcl(acl: Acl): (r: Acl)
    ensures TraverseOnlyAcl(r) && |r| == |acl|
    ensures Grantees(r) == Grantees(acl)
  {
    if acl == [] then []
    else
      var n := |acl| - 1;
      var t := TraversalAcl(acl[..n]);
      var ace := Ace(acl[n].group, TraverseOnly);
      AllowsAppend(t, ace);
      AllowsAppend(acl[..n], acl[n]);
      assert acl == acl[..n] + [acl[n]];
      t + [ace]
  }

  /** The depth of the first traversal entry along a realpath: `<orgdir>/<ou>`,
      but not `<srvdir>/<srv>`. */
  function Begin(fs: Bcpfs, rp: string): nat {
    if fs.IsServiceRealpath(rp) then 3 else 2
  }

  /** `q` is a proper ancestor of the realpath at traversal depth. */
  ghost predicate OnTheWay(fs: Bcpfs, rp: string, q: string) {
    Below(rp, q) && |Parts(q)| >= Begin(fs, rp)
  }

  function OuDir(fs: Bcpfs, p: string): string {
    Join([fs.orgUnitDir, FirstPart(p)])
  }

  ghost predicate RealWants(fs: Bcpfs, reals: Exports, q: string, g: string) {
    exists r :: r in reals && OnTheWay(fs, r.path, q) && g in Grantees(r.acl)
  }

  ghost predicate ShareWants(fs: Bcpfs, shares: Exports, q: string, g: string) {
    exists s :: s in shares && q == OuDir(fs, s.path) && g in Grantees(s.acl)
  }

  ghost predicate HasEntry(travs: Exports, q: string, g: string) {
    exists t :: t in travs && t.path == q && g in Grantees(t.acl)
  }

  ghost predicate AllTraverseOnly(travs: Exports) {
    forall t :: t in travs ==> TraverseOnlyAcl(t.acl)
  }

  /** The traversal list is exact: a path occurs once, all modes are `--x`, a
      group has an entry on precisely the ancestors of what it may access and on
      the org unit directories of what is shared with it, and there are no other
      paths. */
  ghost predicate IsTraversal(fs: Bcpfs, shares: Exports, reals: Exports, travs: Exports) {
    && NoDuplicates(PathsOf(travs))
    && AllTraverseOnly(travs)
    && (forall q, g :: HasEntry(travs, q, g) <==> RealWants(fs, reals, q, g) || ShareWants(fs, shares, q, g))
    && (forall t :: t in travs ==>
          || (exists r :: r in reals && OnTheWay(fs, r.path, t.path))
          || (exists s :: s in shares && t.path == OuDir(fs, s.path)))
  }

  // The list as a set: `(q, None)` for an entry on path `q`, `(q, Some(g))` for
  // one that grants to `g`.

  type Content = set<(string, Option<string>)>

  function EntryContent(path: string, acl: Acl): Content {
    {(path, None)} + set g | g in Grantees(acl) :: (path, Some(g))
  }

  function ContentOf(travs: Exports): Content {
    if travs == [] then {}
    else
      var n := |travs| - 1;
      ContentOf(travs[..n]) + EntryContent(travs[n].path, travs[n].acl)
  }

  ghost predicate Mentions(t: ExportEntry, o: Option<string>) {
    o.Some? ==> o.value in Grantees(t.acl)
  }

  lemma {:induction false} InContent(travs: Exports, q: string, o: Option<string>)
    ensures (q, o) in ContentOf(travs) <==> exists t :: t in travs && t.path == q && Mentions(t, o)
  {
    if travs != [] {
      var n := |travs| - 1;
      InContent(travs[..n], q, o);
      assert travs == travs[..n] + [travs[n]];
      assert forall t :: t in travs <==> t in travs[..n] || t == travs[n];
    }
  }

  lemma ContentAppend(travs: Exports, t: ExportEntry)
    ensures ContentOf(travs + [t]) == ContentOf(travs) + EntryContent(t.path, t.acl)
  {
    assert (travs + [t])[..|travs|] == travs;
  }

  lemma {:induction false} ContentUpdate(travs: Exports, idx: nat, acl: Acl, more: Acl)
    requires idx < |travs| && Grantees(acl) == Grantees(travs[idx].acl) + Grantees(more)
    ensures ContentOf(travs[idx := travs[idx].(acl := acl)]) ==
            ContentOf(travs) + EntryContent(travs[idx].path, more)
  {
    var n := |travs| - 1;
    var travs' := travs[idx := travs[idx].(acl := acl)];
    if idx == n {
      assert travs'[..n] == travs[..n];
    } else {
      ContentUpdate(travs[..n], idx, acl, more);
      assert travs'[..n] == travs[..n][idx := travs[idx].(acl := acl)];
    }
  }

  ghost predicate WellIndexed(travs: Exports, index: map<string, nat>) {
    IsIndex(index, PathsOf(travs)) && NoDuplicates(PathsOf(travs)) && AllTraverseOnly(travs)
  }

  lemma WellIndexedUpdate(travs: Exports, index: map<string, nat>, idx: nat, acl: Acl)
    requires WellIndexed(travs, index) && idx < |travs|
    requires TraverseOnlyAcl(travs[idx].acl) ==> TraverseOnlyAcl(acl)
    ensures WellIndexed(travs[idx := travs[idx].(acl := acl)], index)
  {
    var travs' := travs[idx := travs[idx].(acl := acl)];
    assert PathsOf(travs') == PathsOf(travs);
    hide IsIndex, NoDuplicates;
    assert travs[idx] in travs;
    forall t | t in travs' ensures TraverseOnlyAcl(t.acl) {
      var k :| 0 <= k < |travs'| && travs'[k] == t;
      assert travs[k] in travs;
    }
  }

  lemma WellIndexedAppend(travs: Exports, index: map<string, nat>, t: ExportEntry)
    requires WellIndexed(travs, index) && t.path !in index && TraverseOnlyAcl(t.acl)
    ensures WellIndexed(travs + [t], index[t.path := |travs|])
  {
    IndexAppend(index, PathsOf(travs), t.path);
    PathsAppend(travs, t);
    forall e | e in travs + [t] ensures TraverseOnlyAcl(e.acl) {
      assert e in travs || e == t;
    }
  }

  /** NewTraversalAclWithGroups(acl.Groups()) */
  method NewTraversalAcl(acl: Slice) returns (t: Slice)
    requires acl.Ok()
    ensures t.Ok() && fresh(t.arr) && t.View() == TraversalAcl(acl.View())
  {
    t := MakeSlice(acl.len);
    for i := 0 to acl.len
      invariant t.Ok() && fresh(t.arr) && t.len == i && t.arr.Length == acl.len
      invariant t.View() == TraversalAcl(acl.View()[..i])
    {
      assert acl.View()[..i + 1][..i] == acl.View()[..i];
      t := Append(t, Ace(acl.arr[i].group, TraverseOnly));
    }
    assert acl.View()[..acl.len] == acl.View();
  }

  /** Update the entry for `path`, or append a new one that holds the given slice. */
  method AddEntry(travs: SliceExports, index: map<string, nat>, path: string, acl: Slice, managing: seq<Group>)
    returns (travs': SliceExports, index': map<string, nat>)
    requires AllOk(travs) && acl.Ok() && WellIndexed(Views(travs), index) && TraverseOnlyAcl(acl.View())
    ensures AllOk(travs') && WellIndexed(Views(travs'), index')
    ensures ContentOf(Views(travs')) == ContentOf(old(Views(travs))) + EntryContent(path, acl.View())
    ensures forall k :: 0 <= k < |travs'| ==>
              travs'[k].acl.arr in Arrays(travs) || travs'[k].acl.arr == acl.arr || fresh(travs'[k].acl.arr)
  {
    hide ContentOf, EntryContent, WellIndexed, IsIndex, TraverseOnlyAcl, Views;
    travs', index' := travs, index;
    IndexedPath(Views(travs), index, path);
    if path in index {
      travs' := MergeInto(travs, index, index[path], acl);
      return;
    }
    ContentAppend(Views(travs), ExportEntry(path, acl.View(), managing));
    WellIndexedAppend(Views(travs), index, ExportEntry(path, acl.View(), managing));
    ViewsAppend(travs, SliceEntry(path, acl, managing));
    index' := index[path := |travs|];
    travs' := travs + [SliceEntry(path, acl, managing)];
  }

  method MergeInto(travs: SliceExports, ghost index: map<string, nat>, idx: nat, acl: Slice) returns (travs': SliceExports)
    requires AllOk(travs) && acl.Ok() && WellIndexed(Views(travs), index) && TraverseOnlyAcl(acl.View()) && idx < |travs|
    ensures AllOk(travs') && WellIndexed(Views(travs'), index)
    ensures ContentOf(Views(travs')) == ContentOf(old(Views(travs))) + EntryContent(travs[idx].path, acl.View())
    ensures forall k :: 0 <= k < |travs'| ==> travs'[k].acl.arr in Arrays(travs) || fresh(travs'[k].acl.arr)
  {
    hide ContentOf, EntryContent, WellIndexed, IsIndex, TraverseOnlyAcl;
    ghost var before := Views(travs);
    var union := Union(travs[idx].acl, acl);
    ContentUpdate(before, idx, union.View(), acl.View());
    WellIndexedUpdate(before, index, idx, union.View());
    ViewsUpdate(travs, idx, union);
    travs' := travs[idx := travs[idx].(acl := union)];
    assert Views(travs') == before[idx := before[idx].(acl := union.View())];
  }

  lemma IndexedPath(travs: Exports, index: map<string, nat>, path: string)
    requires WellIndexed(travs, index)
    ensures path in index ==> index[path] < |travs| && travs[index[path]].path == path
  {
  }

  /** The content that real share `r` adds on its ancestors with less than `i`
      components. */
  function WayContent(fs: Bcpfs, r: ExportEntry, i: nat): Content
    requires i <= |Parts(r.path)|
  {
    if i <= Begin(fs, r.path) then {}
    else WayContent(fs, r, i - 1) + EntryContent(Ancestor(r.path, i - 1), r.acl)
  }

  lemma {:induction false} InWayContent(fs: Bcpfs, r: ExportEntry, i: nat, q: string, o: Option<string>)
    requires i <= |Parts(r.path)|
    ensures (q, o) in WayContent(fs, r, i) <==>
            (exists j :: Begin(fs, r.path) <= j < i && q == Ancestor(r.path, j)) && Mentions(r, o)
  {
    if i > Begin(fs, r.path) { InWayContent(fs, r, i - 1, q, o); }
  }

  lemma InFullWayContent(fs: Bcpfs, r: ExportEntry, q: string, o: Option<string>)
    ensures (q, o) in WayContent(fs, r, |Parts(r.path)|) <==> OnTheWay(fs, r.path, q) && Mentions(r, o)
  {
    var n := |Parts(r.path)|;
    InWayContent(fs, r, n, q, o);
    BelowIffAncestor(r.path, q);
    forall j | 0 < j < n ensures |Parts(Ancestor(r.path, j))| == j {
      AncestorParts(r.path, j);
    }
  }

  lemma WayContentStep(fs: Bcpfs, r: ExportEntry, i: nat, acl: Acl)
    requires RelPath(r.path) && Begin(fs, r.path) <= i < |Parts(r.path)| && Grantees(acl) == Grantees(r.acl)
    ensures WayContent(fs, r, i + 1) == WayContent(fs, r, i) + EntryContent(Join(Parts(r.path)[..i]), acl)
  {
    JoinAncestor(r.path, i);
  }

  /** One new slice serves all entries that are new; merging into an entry makes another
      slice, so the entries that share the first one keep what it says. */
  method AddAncestors(fs: Bcpfs, travs: SliceExports, index: map<string, nat>, r: SliceEntry)
    returns (travs': SliceExports, index': map<string, nat>)
    requires AllOk(travs) && r.acl.Ok() && RelPath(r.path) && WellIndexed(Views(travs), index)
    ensures AllOk(travs') && WellIndexed(Views(travs'), index')
    ensures ContentOf(Views(travs')) == ContentOf(old(Views(travs))) + WayContent(fs, r.View(), |Parts(r.path)|)
    ensures forall k :: 0 <= k < |travs'| ==> travs'[k].acl.arr in Arrays(travs) || fresh(travs'[k].acl.arr)
  {
    hide ContentOf, EntryContent, WellIndexed, Join, TraversalAcl, Grantees, TraverseOnlyAcl;
    travs', index' := travs, index;
    ghost var before, vr := Views(travs), r.View();
    var acl := NewTraversalAcl(r.acl);
    var parts := Parts(r.path);
    var i := Begin(fs, r.path);
    while i < |parts|
      invariant Begin(fs, vr.path) <= i
      invariant AllOk(travs') && WellIndexed(Views(travs'), index')
      invariant acl.Ok() && acl.View() == TraversalAcl(vr.acl)
      invariant ContentOf(Views(travs')) == ContentOf(before) + WayContent(fs, vr, if i < |parts| then i else |parts|)
      invariant forall k :: 0 <= k < |travs'| ==> travs'[k].acl.arr in Arrays(travs) || fresh(travs'[k].acl.arr)
    {
      WayContentStep(fs, vr, i, acl.View());
      travs', index' := AddEntry(travs', index', Join(parts[..i]), acl, r.managing);
      i := i + 1;
    }
  }

  function RealContent(fs: Bcpfs, reals: Exports): Content {
    if reals == [] then {}
    else
      var n := |reals| - 1;
      RealContent(fs, reals[..n]) + WayContent(fs, reals[n], |Parts(reals[n].path)|)
  }

  function ShareContent(fs: Bcpfs, shares: Exports): Content {
    if shares == [] then {}
    else
      var n := |shares| - 1;
      ShareContent(fs, shares[..n]) + EntryContent(OuDir(fs, shares[n].path), shares[n].acl)
  }

  lemma {:induction false} InRealContent(fs: Bcpfs, reals: Exports, q: string, o: Option<string>)
    ensures (q, o) in RealContent(fs, reals) <==>
            exists r :: r in reals && OnTheWay(fs, r.path, q) && Mentions(r, o)
  {
    if reals != [] {
      var n := |reals| - 1;
      InRealContent(fs, reals[..n], q, o);
      InFullWayContent(fs, reals[n], q, o);
      assert reals == reals[..n] + [reals[n]];
      assert forall r :: r in reals <==> r in reals[..n] || r == reals[n];
    }
  }

  lemma {:induction false} InShareContent(fs: Bcpfs, shares: Exports, q: string, o: Option<string>)
    ensures (q, o) in ShareContent(fs, shares) <==>
            exists s :: s in shares && q == OuDir(fs, s.path) && Mentions(s, o)
  {
    if shares != [] {
      var n := |shares| - 1;
      InShareContent(fs, shares[..n], q, o);
      assert shares == shares[..n] + [shares[n]];
      assert forall s :: s in shares <==> s in shares[..n] || s == shares[n];
    }
  }

  lemma RealContentStep(fs: Bcpfs, reals: Exports, k: nat)
    requires k < |reals|
    ensures RealContent(fs, reals[..k + 1]) ==
            RealContent(fs, reals[..k]) + WayContent(fs, reals[k], |Parts(reals[k].path)|)
  {
    assert reals[..k + 1][..k] == reals[..k];
  }

  lemma ShareContentStep(fs: Bcpfs, shares: Exports, k: nat)
    requires k < |shares|
    ensures ShareContent(fs, shares[..k + 1]) ==
            ShareContent(fs, shares[..k]) + EntryContent(OuDir(fs, shares[k].path), shares[k].acl)
  {
    assert shares[..k + 1][..k] == shares[..k];
  }

  lemma NoContent(fs: Bcpfs, exps: Exports)
    ensures RealContent(fs, exps[..0]) == {} && ShareContent(fs, exps[..0]) == {} && ContentOf([]) == {}
    ensures WellIndexed([], map[])
    ensures exps[..|exps|] == exps
  {
  }

  lemma SameGrantees(path: string, a: Acl, b: Acl)
    requires Grantees(a) == Grantees(b)
    ensures EntryContent(path, a) == EntryContent(path, b)
  {
  }

  lemma ContentIsTraversal(fs: Bcpfs, shares: Exports, reals: Exports, travs: Exports)
    requires NoDuplicates(PathsOf(travs)) && AllTraverseOnly(travs)
    requires ContentOf(travs) == RealContent(fs, reals) + ShareContent(fs, shares)
    ensures IsTraversal(fs, shares, reals, travs)
  {
    forall q, g
      ensures HasEntry(travs, q, g) <==> RealWants(fs, reals, q, g) || ShareWants(fs, shares, q, g)
    {
      InContent(travs, q, Some(g));
      InRealContent(fs, reals, q, Some(g));
      InShareContent(fs, shares, q, Some(g));
    }
    forall t | t in travs
      ensures
        || (exists r :: r in reals && OnTheWay(fs, r.path, t.path))
        || (exists s :: s in shares && t.path == OuDir(fs, s.path))
    {
      InContent(travs, t.path, None);
      InRealContent(fs, reals, t.path, None);
      InShareContent(fs, shares, t.path, None);
    }
  }

  method CompileTraversal(fs: Bcpfs, shares: SliceExports, reals: SliceExports) returns (travs: SliceExports)
    requires AllOk(shares) && AllOk(reals)
    requires forall k :: 0 <= k < |reals| ==> RelPath(reals[k].path)
    ensures AllOk(travs) && IsTraversal(fs, Views(shares), Views(reals), Views(travs))
    ensures forall k :: 0 <= k < |travs| ==> fresh(travs[k].acl.arr)
    ensures forall s :: 0 <= s < |shares| ==> shares[s].acl.arr[..] == old(shares[s].acl.arr[..])
    ensures forall k :: 0 <= k < |reals| ==> reals[k].acl.arr[..] == old(reals[k].acl.arr[..])
    ensures Views(shares) == old(Views(shares)) && Views(reals) == old(Views(reals))
  {
    hide ContentOf, RealContent, ShareContent, WellIndexed, Views;
    ghost var vs, vr := Views(shares), Views(reals);
    label Start:
    var index: map<string, nat>;
    travs, index := AddReals(fs, reals);
    SameViews@Start(shares);
    travs, index := AddShares(fs, shares, travs, index);
    SameViews@Start(shares);
    SameViews@Start(reals);
    WellIndexedMeans(Views(travs), index);
    ContentIsTraversal(fs, vs, vr, Views(travs));
  }

  /** Traversal along the realpaths. */
  method AddReals(fs: Bcpfs, reals: SliceExports) returns (travs: SliceExports, index: map<string, nat>)
    requires AllOk(reals) && forall k :: 0 <= k < |reals| ==> RelPath(reals[k].path)
    ensures AllOk(travs) && WellIndexed(Views(travs), index)
    ensures ContentOf(Views(travs)) == RealContent(fs, old(Views(reals)))
    ensures forall k :: 0 <= k < |travs| ==> fresh(travs[k].acl.arr)
  {
    hide ContentOf, RealContent, WayContent, WellIndexed, Views;
    ghost var vr := Views(reals);
    travs, index := [], map[];
    NoContent(fs, vr);
    NoViews();
    for k := 0 to |reals|
      invariant AllOk(travs) && WellIndexed(Views(travs), index) && ContentOf(Views(travs)) == RealContent(fs, vr[..k])
      invariant forall m :: 0 <= m < |travs| ==> fresh(travs[m].acl.arr)
    {
      RealContentStep(fs, vr, k);
      travs, index := AddAncestors(fs, travs, index, reals[k]);
    }
    assert vr[..|reals|] == vr;
  }

  /** Traversal of the org unit directories. */
  method AddShares(fs: Bcpfs, shares: SliceExports, travs0: SliceExports, index0: map<string, nat>)
    returns (travs: SliceExports, index: map<string, nat>)
    requires AllOk(shares) && AllOk(travs0) && WellIndexed(Views(travs0), index0)
    ensures AllOk(travs) && WellIndexed(Views(travs), index)
    ensures ContentOf(Views(travs)) == ContentOf(old(Views(travs0))) + ShareContent(fs, old(Views(shares)))
    ensures forall k :: 0 <= k < |travs| ==> travs[k].acl.arr in Arrays(travs0) || fresh(travs[k].acl.arr)
  {
    hide ContentOf, ShareContent, EntryContent, TraversalAcl, OuDir, WellIndexed, Grantees, TraverseOnlyAcl, Views;
    ghost var vs, before := Views(shares), Views(travs0);
    travs, index := travs0, index0;
    NoContent(fs, vs);
    for k := 0 to |shares|
      invariant AllOk(travs) && WellIndexed(Views(travs), index)
      invariant ContentOf(Views(travs)) == ContentOf(before) + ShareContent(fs, vs[..k])
      invariant forall m :: 0 <= m < |travs| ==> travs[m].acl.arr in Arrays(travs0) || fresh(travs[m].acl.arr)
    {
      ShareContentStep(fs, vs, k);
      label L:
      var acl := NewTraversalAcl(shares[k].acl);
      SameViews@L(travs);
      SameGrantees(OuDir(fs, shares[k].path), acl.View(), vs[k].acl);
      travs, index := AddEntry(travs, index, OuDir(fs, shares[k].path), acl, []);
    }
    assert vs[..|shares|] == vs;
  }

  lemma WellIndexedMeans(travs: Exports, index: map<string, nat>)
    requires WellIndexed(travs, index)
    ensures NoDuplicates(PathsOf(travs)) && AllTraverseOnly(travs)
  {
  }

  /** Service directories stay closed: reaching a shared path below
      `<srvdir>/<srv>` needs membership in the service group. */
  lemma NoServiceDirEntry(fs: Bcpfs, shares: Exports, reals: Exports, travs: Exports, t: ExportEntry)
    requires fs.Valid() && IsTraversal(fs, shares, reals, travs) && t in travs
    requires forall s :: s in shares ==> RelPath(s.path)
    ensures Parts(t.path)[0] == fs.serviceDir ==> |Parts(t.path)| >= 3
  {
    if s :| s in shares && t.path == OuDir(fs, s.path) {
      OuDirParts(fs, s.path);
    } else {
      var r :| r in reals && OnTheWay(fs, r.path, t.path);
      BelowIffParts(r.path, t.path);
    }
  }

  lemma OuDirParts(fs: Bcpfs, p: string)
    requires fs.Valid() && RelPath(p)
    ensures RelPath(OuDir(fs, p)) && Parts(OuDir(fs, p)) == [fs.orgUnitDir, FirstPart(p)]
  {
    JoinNames([fs.orgUnitDir, FirstPart(p)]);
  }
}
