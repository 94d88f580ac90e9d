/** The sharing compiler from exports to realpath ACLs: the import filter, the
    ACL union and the merge of exports that share a realpath. */
module RealShares {
  import opened Strings
  import opened Paths
  import opened Sharing
  import opened AclSlices

  // Import filter

  datatype Action = Accept | Reject | Pass

  /** An import rule; its anchored regular expression is any predicate on paths. */
  datatype ImportRule = ImportRule(group: string, matches: string -> bool, action: Action) {
    function Decide(path: string, ace: Ace): Action {
      if ace.group != group then Pass
      else if !matches(path) then Pass
      else action
    }
  }

  type ImportFilter = seq<ImportRule>

  function FilterPathAce(imps: ImportFilter, path: string, ace: Ace): (a: Action)
    ensures a != Pass
  {
    if imps == [] then Reject
    else
      match imps[0].Decide(path, ace)
      case Accept => Accept
      case Reject => Reject
      case Pass => FilterPathAce(imps[1..], path, ace)
  }

  /** Some rule accepts the entry and no earlier rule decides about it. */
  ghost predicate FirstMatchAccepts(imps: ImportFilter, path: string, ace: Ace) {
    exists i :: 0 <= i < |imps| && imps[i].Decide(path, ace) == Accept
      && forall j :: 0 <= j < i ==> imps[j].Decide(path, ace) == Pass
  }

  lemma {:induction false} FilterIsFirstMatch(imps: ImportFilter, path: string, ace: Ace)
    ensures FilterPathAce(imps, path, ace) == Accept <==> FirstMatchAccepts(imps, path, ace)
  {
    if imps != [] && imps[0].Decide(path, ace) == Pass {
      var rest := imps[1..];
      FilterIsFirstMatch(rest, path, ace);
      if FirstMatchAccepts(rest, path, ace) {
        var i :| 0 <= i < |rest| && rest[i].Decide(path, ace) == Accept
          && forall j :: 0 <= j < i ==> rest[j].Decide(path, ace) == Pass;
        assert imps[i + 1] == rest[i];
        forall j | 0 <= j < i + 1 ensures imps[j].Decide(path, ace) == Pass {
          if j > 0 { assert imps[j] == rest[j - 1]; }
        }
      }
      if FirstMatchAccepts(imps, path, ace) {
        var i :| 0 <= i < |imps| && imps[i].Decide(path, ace) == Accept
          && forall j :: 0 <= j < i ==> imps[j].Decide(path, ace) == Pass;
        assert rest[i - 1] == imps[i];
        forall j | 0 <= j < i - 1 ensures rest[j].Decide(path, ace) == Pass {
          assert rest[j] == imps[j + 1];
        }
      }
    }
  }

  // selectImportedExports

  ghost function AcceptedAcl(acl: Acl, path: string, imps: ImportFilter): Acl {
    if acl == [] then []
    else
      var n := |acl| - 1;
      AcceptedAcl(acl[..n], path, imps) + if FilterPathAce(imps, path, acl[n]) == Accept then [acl[n]] else []
  }

  /** An export is dropped only if it grants something and nothing of that is
      imported; an empty ACL stands for unexporting the path. */
  ghost function SelectedExport(e: ExportEntry, imps: ImportFilter): Exports {
    var acl := AcceptedAcl(e.acl, e.path, imps);
    if e.acl == [] || acl != [] then [e.(acl := acl)] else []
  }

  ghost function Selected(exps: Exports, imps: ImportFilter): Exports {
    if exps == [] then []
    else
      var n := |exps| - 1;
      Selected(exps[..n], imps) + SelectedExport(exps[n], imps)
  }

  method SelectAces(acl: Slice, path: string, imps: ImportFilter) returns (accepted: Slice)
    requires acl.Ok()
    ensures accepted.Ok() && fresh(accepted.arr) && accepted.View() == AcceptedAcl(acl.View(), path, imps)
  {
    accepted := MakeSlice(acl.len);
    for j := 0 to acl.len
      invariant accepted.Ok() && fresh(accepted.arr) && accepted.len <= j && accepted.arr.Length == acl.len
      invariant accepted.View() == AcceptedAcl(acl.View()[..j], path, imps)
    {
      assert acl.View()[..j + 1][..j] == acl.View()[..j];
      if FilterPathAce(imps, path, acl.arr[j]) == Accept {
        accepted := Append(accepted, acl.arr[j]);
      }
    }
    assert acl.View()[..acl.len] == acl.View();
  }

  /** The selection; its ACLs are new slices, and no existing array is written. */
  method SelectImportedExports(exps: SliceExports, imps: ImportFilter) returns (sels: SliceExports)
    requires AllOk(exps)
    ensures AllOk(sels) && Views(sels) == Selected(Views(exps), imps)
    ensures forall i :: 0 <= i < |sels| ==> fresh(sels[i].acl.arr)
    ensures Views(exps) == old(Views(exps))
  {
    hide AcceptedAcl, Views, Arrays, Selected, SelectedExport;
    ghost var vs := Views(exps);
    NoViews();
    NothingSelected(vs, imps);
    sels := [];
    label Start:
    for i := 0 to |exps|
      invariant AllOk(sels) && Views(sels) == Selected(vs[..i], imps)
      invariant forall k :: 0 <= k < |sels| ==> fresh(sels[k].acl.arr)
    {
      var exp := exps[i];
      SameViews@Start(exps);
      ViewsPrefix(exps, i);
      SelectedStep(vs, i, imps);
      SelectedOne(vs[i], imps);
      ghost var before := Views(sels);
      label L:
      var acl := SelectAces(exp.acl, exp.path, imps);
      SameViews@L(sels);
      assert |acl.View()| == acl.len && |vs[i].acl| == exp.acl.len;
      // An empty ACL stands for unexporting the path.
      if exp.acl.len == 0 || acl.len > 0 {
        ViewsAppend(sels, SliceEntry(exp.path, acl, exp.managing));
        sels := sels + [SliceEntry(exp.path, acl, exp.managing)];
      } else {
        assert before + [] == before;
      }
    }
    SameViews@Start(exps);
    assert vs[..|exps|] == vs;
  }

  lemma SelectedOne(e: ExportEntry, imps: ImportFilter)
    ensures var acl := AcceptedAcl(e.acl, e.path, imps);
            SelectedExport(e, imps) == if |e.acl| == 0 || |acl| > 0 then [e.(acl := acl)] else []
  {
  }

  lemma NothingSelected(exps: Exports, imps: ImportFilter)
    ensures Selected(exps[..0], imps) == []
  {
  }

  lemma SelectedStep(exps: Exports, i: nat, imps: ImportFilter)
    requires i < |exps|
    ensures Selected(exps[..i + 1], imps) == Selected(exps[..i], imps) + SelectedExport(exps[i], imps)
  {
    assert exps[..i + 1][..i] == exps[..i];
  }

  lemma {:induction false} InAccepted(ace: Ace, acl: Acl, path: string, imps: ImportFilter)
    ensures ace in AcceptedAcl(acl, path, imps) <==> ace in acl && FilterPathAce(imps, path, ace) == Accept
  {
    if acl != [] {
      var n := |acl| - 1;
      InAccepted(ace, acl[..n], path, imps);
      assert acl == acl[..n] + [acl[n]];
    }
  }

  lemma {:induction false} InSelected(s: ExportEntry, exps: Exports, imps: ImportFilter)
    ensures s in Selected(exps, imps) <==> exists e :: e in exps && s in SelectedExport(e, imps)
  {
    if exps != [] {
      var n := |exps| - 1;
      hide SelectedExport;
      InSelected(s, exps[..n], imps);
      assert exps == exps[..n] + [exps[n]];
      assert forall e :: e in exps <==> e in exps[..n] || e == exps[n];
    }
  }

  /** The accepted entries are those whose first matching rule accepts, each as often as it
      is listed, in their order. */
  lemma {:induction false} AcceptedMeans(acl: Acl, path: string, imps: ImportFilter, ace: Ace)
    ensures multiset(AcceptedAcl(acl, path, imps))[ace] == if FirstMatchAccepts(imps, path, ace) then multiset(acl)[ace] else 0
  {
    hide FirstMatchAccepts, FilterPathAce;
    if acl != [] {
      var n := |acl| - 1;
      AcceptedMeans(acl[..n], path, imps, ace);
      FilterIsFirstMatch(imps, path, acl[n]);
      assert acl == acl[..n] + [acl[n]];
    }
  }

  lemma {:induction false} AcceptedPlace(acl: Acl, path: string, imps: ImportFilter, i: nat) returns (p: nat)
    requires i < |AcceptedAcl(acl, path, imps)|
    ensures p < |acl| && acl[p] == AcceptedAcl(acl, path, imps)[i] && |AcceptedAcl(acl[..p], path, imps)| == i
  {
    var n := |acl| - 1;
    if i < |AcceptedAcl(acl[..n], path, imps)| {
      p := AcceptedPlace(acl[..n], path, imps, i);
      assert acl[..n][..p] == acl[..p];
    } else {
      p := n;
    }
  }

  lemma {:induction false} AcceptedGrows(acl: Acl, path: string, imps: ImportFilter, p: nat, q: nat)
    requires p <= q <= |acl|
    ensures |AcceptedAcl(acl[..p], path, imps)| <= |AcceptedAcl(acl[..q], path, imps)|
    decreases q - p
  {
    if p < q {
      AcceptedGrows(acl, path, imps, p, q - 1);
      assert acl[..q][..q - 1] == acl[..q - 1];
    }
  }

  lemma AcceptedInOrder(acl: Acl, path: string, imps: ImportFilter, i: nat, j: nat) returns (p: nat, q: nat)
    requires i < j < |AcceptedAcl(acl, path, imps)|
    ensures p < q < |acl| && acl[p] == AcceptedAcl(acl, path, imps)[i] && acl[q] == AcceptedAcl(acl, path, imps)[j]
  {
    p := AcceptedPlace(acl, path, imps, i);
    q := AcceptedPlace(acl, path, imps, j);
    if q <= p { AcceptedGrows(acl, path, imps, q, p); }
  }

  lemma AcceptedOnce(acl: Acl, path: string, imps: ImportFilter)
    requires ListsEachOnce(acl)
    ensures ListsEachOnce(AcceptedAcl(acl, path, imps))
  {
    var accepted := AcceptedAcl(acl, path, imps);
    forall i, j | 0 <= i < j < |accepted| ensures accepted[i].group != accepted[j].group {
      var p, q := AcceptedInOrder(acl, path, imps, i, j);
    }
  }

  /** An export with entries is shared exactly if one of them is accepted, an export
      without entries always. */
  lemma SharedIff(exps: Exports, imps: ImportFilter, s: ExportEntry)
    ensures s in Selected(exps, imps) <==>
            exists e :: e in exps && s == e.(acl := AcceptedAcl(e.acl, e.path, imps)) && Imported(e, imps)
  {
    hide FirstMatchAccepts;
    InSelected(s, exps, imps);
    forall e | e in exps ensures s in SelectedExport(e, imps) <==> s == e.(acl := AcceptedAcl(e.acl, e.path, imps)) && Imported(e, imps) {
      ImportedMeans(e, imps);
    }
  }

  ghost predicate Imported(e: ExportEntry, imps: ImportFilter) {
    e.acl == [] || exists ace :: ace in e.acl && FirstMatchAccepts(imps, e.path, ace)
  }

  lemma ImportedMeans(e: ExportEntry, imps: ImportFilter)
    ensures e.acl == [] || AcceptedAcl(e.acl, e.path, imps) != [] <==> Imported(e, imps)
  {
    hide FirstMatchAccepts;
    var acl := AcceptedAcl(e.acl, e.path, imps);
    if acl != [] {
      InAccepted(acl[0], e.acl, e.path, imps);
      FilterIsFirstMatch(imps, e.path, acl[0]);
      assert acl[0] in acl;
    }
    if ace :| ace in e.acl && FirstMatchAccepts(imps, e.path, ace) {
      InAccepted(ace, e.acl, e.path, imps);
      FilterIsFirstMatch(imps, e.path, ace);
    }
  }

  /** A path is shared exactly if one of its exports is imported. */
  lemma SharedPathIff(exps: Exports, imps: ImportFilter, p: string)
    ensures (exists s :: s in Selected(exps, imps) && s.path == p) <==> exists e :: e in exps && e.path == p && Imported(e, imps)
  {
    hide Selected, Imported, AcceptedAcl;
    if s :| s in Selected(exps, imps) && s.path == p { SharedIff(exps, imps, s); }
    if e :| e in exps && e.path == p && Imported(e, imps) {
      var s := e.(acl := AcceptedAcl(e.acl, e.path, imps));
      SharedIff(exps, imps, s);
    }
  }

  /** Shares come in the order of their exports. */
  lemma {:induction false} SelectedPlace(exps: Exports, imps: ImportFilter, i: nat) returns (p: nat)
    requires i < |Selected(exps, imps)|
    ensures p < |exps| && Selected(exps, imps)[i] == exps[p].(acl := AcceptedAcl(exps[p].acl, exps[p].path, imps))
    ensures |Selected(exps[..p], imps)| == i
  {
    var n := |exps| - 1;
    SelectedExportPath(exps[n], imps);
    if i < |Selected(exps[..n], imps)| {
      p := SelectedPlace(exps[..n], imps, i);
      assert exps[..n][..p] == exps[..p];
    } else {
      p := n;
    }
  }

  lemma {:induction false} SelectedGrows(exps: Exports, imps: ImportFilter, p: nat, q: nat)
    requires p <= q <= |exps|
    ensures |Selected(exps[..p], imps)| <= |Selected(exps[..q], imps)|
    decreases q - p
  {
    hide SelectedExport;
    if p < q {
      SelectedGrows(exps, imps, p, q - 1);
      assert exps[..q][..q - 1] == exps[..q - 1];
    }
  }

  lemma SelectedInOrder(exps: Exports, imps: ImportFilter, i: nat, j: nat) returns (p: nat, q: nat)
    requires i < j < |Selected(exps, imps)|
    ensures p < q < |exps| && Selected(exps, imps)[i] == exps[p].(acl := AcceptedAcl(exps[p].acl, exps[p].path, imps))
    ensures Selected(exps, imps)[j] == exps[q].(acl := AcceptedAcl(exps[q].acl, exps[q].path, imps))
  {
    hide SelectedExport, Selected, AcceptedAcl;
    p := SelectedPlace(exps, imps, i);
    q := SelectedPlace(exps, imps, j);
    if q <= p { SelectedGrows(exps, imps, q, p); }
  }

  /** What is shared are exported paths, still without duplicates. */
  lemma {:induction false} SelectedPaths(exps: Exports, imps: ImportFilter)
    requires NoDuplicates(PathsOf(exps))
    ensures NoDuplicates(PathsOf(Selected(exps, imps)))
    ensures Elements(PathsOf(Selected(exps, imps))) <= Elements(PathsOf(exps))
  {
    hide PathsOf, NoDuplicates, Elements, SelectedExport;
    if exps != [] {
      var n := |exps| - 1;
      assert exps == exps[..n] + [exps[n]];
      DistinctAppend(exps[..n], exps[n]);
      SelectedPaths(exps[..n], imps);
      SelectedExportPath(exps[n], imps);
      var before, more := Selected(exps[..n], imps), SelectedExport(exps[n], imps);
      if more == [] {
        assert before + more == before;
      } else {
        assert more == [more[0]];
        DistinctAppend(before, more[0]);
      }
    } else {
      DistinctNone();
    }
  }

  lemma DistinctNone()
    ensures NoDuplicates(PathsOf([])) && Elements(PathsOf([])) == {}
  {
  }

  lemma DistinctAppend(exps: Exports, e: ExportEntry)
    ensures NoDuplicates(PathsOf(exps + [e])) <==>
            NoDuplicates(PathsOf(exps)) && e.path !in Elements(PathsOf(exps))
    ensures Elements(PathsOf(exps + [e])) == Elements(PathsOf(exps)) + {e.path}
  {
    PathsAppend(exps, e);
    AppendElements(PathsOf(exps), e.path);
    NoDuplicatesAppend(PathsOf(exps), e.path);
  }

  lemma NoDuplicatesAppend(s: seq<string>, x: string)
    ensures NoDuplicates(s + [x]) <==> NoDuplicates(s) && x !in Elements(s)
  {
    var t := s + [x];
    assert forall i :: 0 <= i < |s| ==> t[i] == s[i] && s[i] in Elements(s);
    assert t[|s|] == x;
    if NoDuplicates(t) {
      assert forall i, j :: 0 <= i < j < |s| ==> t[i] != t[j];
      assert forall i :: 0 <= i < |s| ==> t[i] != t[|s|];
    }
  }

  lemma SelectedExportPath(e: ExportEntry, imps: ImportFilter)
    ensures |SelectedExport(e, imps)| <= 1
    ensures SelectedExport(e, imps) != [] ==> SelectedExport(e, imps)[0].path == e.path
  {
  }

  // Acl.Union

  ghost predicate IsUnion(u: Acl, a: Acl, b: Acl) {
    SameAccess(u, a, b) && KeepsEntries(u, a) && LastUnion(u, a, b)
  }

  /** `u` gives every group the access that `a` or `b` give it. */
  ghost predicate SameAccess(u: Acl, a: Acl, b: Acl) {
    && (forall g, bit :: Allows(u, g, bit) <==> Allows(a, g, bit) || Allows(b, g, bit))
    && Grantees(u) == Grantees(a) + Grantees(b)
  }

  /** The entries of `a` come first and are only changed where the group's last one is; the
      other groups of `u` have one entry each. */
  ghost predicate KeepsEntries(u: Acl, a: Acl) {
    && |a| <= |u|
    && (forall i :: 0 <= i < |a| ==> u[i].group == a[i].group)
    && (forall i, k :: 0 <= i < k < |a| && a[k].group == a[i].group ==> u[i] == a[i])
    && (forall i, k :: 0 <= i < k < |u| && |a| <= k ==> u[i].group != u[k].group)
  }

  /** The last entry of a group, which is the one that counts on disk, merges its last one
      in `a` with all in `b`. */
  ghost predicate LastUnion(u: Acl, a: Acl, b: Acl) {
    forall g, bit :: g in Grantees(u) ==>
      (LastMode(u, g).Has(bit) <==> (g in Grantees(a) && LastMode(a, g).Has(bit)) || Allows(b, g, bit))
  }

  /** For every group of `u`, the position of its last entry. */
  ghost predicate GroupIndex(uByGroup: map<string, nat>, u: Acl) {
    && uByGroup.Keys == Grantees(u)
    && forall g :: g in uByGroup ==> LastAt(u, g, uByGroup[g])
  }

  ghost predicate LastAt(u: Acl, g: string, k: nat) {
    k < |u| && u[k].group == g && forall m :: k < m < |u| ==> u[m].group != g
  }

  /** If every group of `a` has one entry, so has every group of the union, and this gives
      exactly what `a` and `b` give. */
  lemma UnionListsOnce(u: Acl, a: Acl, b: Acl)
    requires IsUnion(u, a, b) && ListsEachOnce(a)
    ensures ListsEachOnce(u)
    ensures forall i, bit :: 0 <= i < |u| ==> (u[i].mode.Has(bit) <==> Allows(a, u[i].group, bit) || Allows(b, u[i].group, bit))
  {
    forall i, bit | 0 <= i < |u|
      ensures u[i].mode.Has(bit) <==> Allows(a, u[i].group, bit) || Allows(b, u[i].group, bit)
    {
      assert u[i] in u;
      if Allows(u, u[i].group, bit) {
        var ace :| ace in u && ace.group == u[i].group && ace.mode.Has(bit);
        var k :| 0 <= k < |u| && u[k] == ace;
        assert k == i;
      }
    }
  }

  /** The union is a copy of `a` whose elements are then overwritten and extended. The
      two input arrays are only read. */
  method Union(a: Slice, b: Slice) returns (u: Slice)
    requires a.Ok() && b.Ok()
    ensures u.Ok() && fresh(u.arr) && IsUnion(u.View(), a.View(), b.View())
    ensures a.len <= u.len <= a.len + b.len
    ensures TraverseOnlyAcl(a.View()) && TraverseOnlyAcl(b.View()) ==> TraverseOnlyAcl(u.View())
    ensures a.arr[..] == old(a.arr[..]) && b.arr[..] == old(b.arr[..])
  {
    hide Allows, Grantees, TraverseOnlyAcl, IsUnion;
    ghost var va, vb := a.View(), b.View();
    var uByGroup: map<string, nat>;
    u, uByGroup := CopyAndIndex(a, b.len);
    UnionStart(va, vb);
    for i := 0 to b.len
      invariant u.Ok() && fresh(u.arr) && u.arr.Length == a.len + b.len
      invariant a.len <= u.len <= a.len + i
      invariant IsUnion(u.View(), va, vb[..i]) && GroupIndex(uByGroup, u.View())
      invariant TraverseOnlyAcl(va) && TraverseOnlyAcl(vb) ==> TraverseOnlyAcl(u.View())
    {
      var ace := b.arr[i];
      assert ace == vb[i];
      InAcl(vb, i);
      ghost var before := u.View();
      if ace.group in uByGroup {
        var idx := uByGroup[ace.group];
        UnionUpdate(before, va, vb, i, uByGroup, idx);
        u.arr[idx] := Ace(u.arr[idx].group, u.arr[idx].mode.Or(ace.mode));
        assert u.View() == before[idx := Ace(before[idx].group, before[idx].mode.Or(ace.mode))];
      } else {
        UnionAppend(before, va, vb, i, uByGroup);
        uByGroup := uByGroup[ace.group := u.len];
        u := Append(u, ace);
      }
    }
    assert vb[..b.len] == vb;
  }

  /** make, copy, and the index of the copied entries. */
  method CopyAndIndex(a: Slice, extra: nat) returns (u: Slice, uByGroup: map<string, nat>)
    requires a.Ok()
    ensures u.Ok() && fresh(u.arr) && u.arr.Length == a.len + extra && u.len == a.len
    ensures u.View() == a.View() && GroupIndex(uByGroup, u.View())
  {
    var arr := new Ace[a.len + extra](_ => Ace("", NoAccess));
    for i := 0 to a.len
      invariant arr[..i] == a.arr[..i]
    {
      arr[i] := a.arr[i];
    }
    u := Slice(arr, a.len);
    assert u.View() == a.View();
    uByGroup := IndexEntries(u);
  }

  method IndexEntries(u: Slice) returns (uByGroup: map<string, nat>)
    requires u.Ok()
    ensures GroupIndex(uByGroup, u.View())
  {
    hide Grantees;
    uByGroup := map[];
    NoEntries(u.View());
    for i := 0 to u.len
      invariant GroupIndex(uByGroup, u.View()[..i])
    {
      GroupIndexPrefix(uByGroup, u.View(), i);
      uByGroup := uByGroup[u.arr[i].group := i];
    }
    assert u.View()[..u.len] == u.View();
  }

  lemma NoEntries(a: Acl)
    ensures GroupIndex(map[], a[..0]) && a[..|a|] == a
  {
  }

  lemma GroupIndexPrefix(uByGroup: map<string, nat>, u: Acl, i: nat)
    requires i < |u| && GroupIndex(uByGroup, u[..i])
    ensures GroupIndex(uByGroup[u[i].group := i], u[..i + 1])
  {
    assert u[..i + 1] == u[..i] + [u[i]];
    AllowsAppend(u[..i], u[i]);
  }

  lemma UnionStart(a: Acl, b: Acl)
    ensures IsUnion(a, a, b[..0])
  {
  }

  lemma InAcl(b: Acl, i: nat)
    requires i < |b|
    ensures TraverseOnlyAcl(b) ==> b[i].mode == TraverseOnly
  {
  }

  lemma UnionUpdate(u: Acl, a: Acl, b: Acl, i: nat, uByGroup: map<string, nat>, idx: nat)
    requires i < |b| && IsUnion(u, a, b[..i]) && GroupIndex(uByGroup, u)
    requires LastAt(u, b[i].group, idx)
    ensures var v := u[idx := Ace(u[idx].group, u[idx].mode.Or(b[i].mode))];
            && IsUnion(v, a, b[..i + 1]) && GroupIndex(uByGroup, v)
            && (TraverseOnlyAcl(u) && b[i].mode == TraverseOnly ==> TraverseOnlyAcl(v))
  {
    hide Allows, Grantees, TraverseOnlyAcl, KeepsEntries, LastUnion, SameAccess;
    AccessGrantees(u, a, b[..i]);
    var v := u[idx := Ace(u[idx].group, u[idx].mode.Or(b[i].mode))];
    AllowsUpdate(u, idx, b[i]);
    AccessUpdate(u, a, b, i, idx);
    KeepsUpdate(u, a, idx, v);
    LastUpdate(u, a, b, i, idx);
    IndexUpdate(u, uByGroup, idx, v);
  }

  lemma AccessUpdate(u: Acl, a: Acl, b: Acl, i: nat, idx: nat)
    requires i < |b| && SameAccess(u, a, b[..i]) && idx < |u| && u[idx].group == b[i].group
    ensures SameAccess(u[idx := Ace(u[idx].group, u[idx].mode.Or(b[i].mode))], a, b[..i + 1])
  {
    assert u[idx].group in Grantees(u) by { assert u[idx] in u; }
    hide Allows, Grantees, TraverseOnlyAcl;
    assert b[..i + 1] == b[..i] + [b[i]];
    AllowsAppend(b[..i], b[i]);
    AllowsUpdate(u, idx, b[i]);
  }

  lemma IndexUpdate(u: Acl, uByGroup: map<string, nat>, idx: nat, v: Acl)
    requires GroupIndex(uByGroup, u) && idx < |u| == |v| && Grantees(u) == Grantees(v)
    requires v == u[idx := v[idx]] && v[idx].group == u[idx].group
    ensures GroupIndex(uByGroup, v)
  {
    hide Grantees;
  }

  lemma KeepsUpdate(u: Acl, a: Acl, idx: nat, v: Acl)
    requires KeepsEntries(u, a) && idx < |u| == |v| && LastAt(u, u[idx].group, idx)
    requires v == u[idx := v[idx]] && v[idx].group == u[idx].group
    ensures KeepsEntries(v, a)
  {
    forall i, k | 0 <= i < k < |a| && a[k].group == a[i].group ensures v[i] == a[i] {
      assert u[k].group == u[i].group;
    }
  }

  lemma LastUpdate(u: Acl, a: Acl, b: Acl, i: nat, idx: nat)
    requires i < |b| && LastAt(u, b[i].group, idx) && LastUnion(u, a, b[..i]) && Grantees(u) == Grantees(a) + Grantees(b[..i])
    ensures LastUnion(u[idx := Ace(u[idx].group, u[idx].mode.Or(b[i].mode))], a, b[..i + 1])
  {
    var v := u[idx := Ace(u[idx].group, u[idx].mode.Or(b[i].mode))];
    hide Allows, Grantees, LastMode, TraverseOnlyAcl;
    assert b[..i + 1] == b[..i] + [b[i]];
    AllowsAppend(b[..i], b[i]);
    AllowsUpdate(u, idx, b[i]);
    forall g | g in Grantees(u) ensures LastMode(v, g) == if g == b[i].group then LastMode(u, g).Or(b[i].mode) else LastMode(u, g) {
      LastModeUpdate(u, idx, v, g);
    }
    OrHas(b[i].mode);
  }

  lemma OrHas(m: Mode)
    ensures forall n: Mode, bit :: n.Or(m).Has(bit) <==> n.Has(bit) || m.Has(bit)
  {
    forall n: Mode, bit ensures n.Or(m).Has(bit) <==> n.Has(bit) || m.Has(bit) {
      match bit case R => case W => case X =>
    }
  }

  lemma LastModeUpdate(u: Acl, idx: nat, v: Acl, g: string)
    requires idx < |u| == |v| && v == u[idx := v[idx]] && v[idx].group == u[idx].group
    requires LastAt(u, u[idx].group, idx) && g in Grantees(u)
    ensures g in Grantees(v) && LastMode(v, g) == if g == u[idx].group then v[idx].mode else LastMode(u, g)
    ensures g == u[idx].group ==> LastMode(u, g) == u[idx].mode
  {
    var k := LastIndex(u, g);
    hide Grantees, LastMode;
    LastModeAt(u, g, k);
    LastModeAt(v, g, k);
  }

  lemma {:induction false} LastIndex(u: Acl, g: string) returns (k: nat)
    requires g in Grantees(u)
    ensures LastAt(u, g, k)
    decreases |u|
  {
    var n := |u| - 1;
    assert u == u[..n] + [u[n]];
    if u[n].group == g {
      k := n;
    } else {
      k := LastIndex(u[..n], g);
    }
  }

  lemma UnionAppend(u: Acl, a: Acl, b: Acl, i: nat, uByGroup: map<string, nat>)
    requires i < |b| && IsUnion(u, a, b[..i]) && GroupIndex(uByGroup, u) && b[i].group !in uByGroup
    ensures IsUnion(u + [b[i]], a, b[..i + 1]) && GroupIndex(uByGroup[b[i].group := |u|], u + [b[i]])
    ensures TraverseOnlyAcl(u) && b[i].mode == TraverseOnly ==> TraverseOnlyAcl(u + [b[i]])
  {
    hide Allows, Grantees, TraverseOnlyAcl, KeepsEntries, LastUnion, SameAccess, LastAt;
    KeepsAppend(u, a, b[i]);
    IndexAppendEntry(u, uByGroup, b[i]);
    AllowsAppend(u, b[i]);
    AccessAppend(u, a, b, i);
    AccessGrantees(u, a, b[..i]);
    LastAppend(u, a, b, i);
  }

  lemma AccessGrantees(u: Acl, a: Acl, b: Acl)
    requires SameAccess(u, a, b)
    ensures Grantees(u) == Grantees(a) + Grantees(b)
  {
  }

  lemma AccessAppend(u: Acl, a: Acl, b: Acl, i: nat)
    requires i < |b| && SameAccess(u, a, b[..i])
    ensures SameAccess(u + [b[i]], a, b[..i + 1])
  {
    hide Allows, Grantees, TraverseOnlyAcl;
    assert b[..i + 1] == b[..i] + [b[i]];
    AllowsAppend(b[..i], b[i]);
    AllowsAppend(u, b[i]);
  }

  lemma IndexAppendEntry(u: Acl, uByGroup: map<string, nat>, ace: Ace)
    requires GroupIndex(uByGroup, u) && ace.group !in uByGroup
    ensures GroupIndex(uByGroup[ace.group := |u|], u + [ace])
  {
    AllowsAppend(u, ace);
    hide Grantees;
  }

  lemma KeepsAppend(u: Acl, a: Acl, ace: Ace)
    requires KeepsEntries(u, a) && ace.group !in Grantees(u)
    ensures KeepsEntries(u + [ace], a)
  {
    assert forall k :: 0 <= k < |u| ==> u[k] in u;
  }

  lemma LastAppend(u: Acl, a: Acl, b: Acl, i: nat)
    requires i < |b| && b[i].group !in Grantees(u) && LastUnion(u, a, b[..i])
    requires Grantees(u) == Grantees(a) + Grantees(b[..i])
    ensures LastUnion(u + [b[i]], a, b[..i + 1])
  {
    var v := u + [b[i]];
    NotAllowed(b[..i], b[i].group);
    hide Allows, Grantees, LastMode, TraverseOnlyAcl;
    assert b[..i + 1] == b[..i] + [b[i]];
    AllowsAppend(b[..i], b[i]);
    AllowsAppend(u, b[i]);
    LastModeAt(v, b[i].group, |u|);
    forall g | g in Grantees(u) ensures LastMode(v, g) == LastMode(u, g) {
      LastModeAppend(u, b[i], g);
    }
  }

  lemma LastModeAppend(u: Acl, ace: Ace, g: string)
    requires g in Grantees(u) && g != ace.group
    ensures g in Grantees(u + [ace]) && LastMode(u + [ace], g) == LastMode(u, g)
  {
    var k := LastIndex(u, g);
    hide Grantees, LastMode;
    LastModeAt(u, g, k);
    LastModeAt(u + [ace], g, k);
  }

  lemma NotAllowed(acl: Acl, g: string)
    ensures g !in Grantees(acl) ==> forall bit :: !Allows(acl, g, bit)
  {
  }

  lemma AllowsAppend(acl: Acl, ace: Ace)
    ensures Grantees(acl + [ace]) == Grantees(acl) + {ace.group}
    ensures forall g, bit ::
              Allows(acl + [ace], g, bit) <==> Allows(acl, g, bit) || (g == ace.group && ace.mode.Has(bit))
    ensures TraverseOnlyAcl(acl + [ace]) <==> TraverseOnlyAcl(acl) && ace.mode == TraverseOnly
  {
    assert forall c :: c in acl + [ace] <==> c in acl || c == ace;
    assert ace in acl + [ace];
    forall g | g in Grantees(acl) + {ace.group} ensures g in Grantees(acl + [ace]) {
      assert g == ace.group || exists c :: c in acl && c.group == g;
    }
    forall g, bit | Allows(acl, g, bit) || (g == ace.group && ace.mode.Has(bit)) ensures Allows(acl + [ace], g, bit) {
      if Allows(acl, g, bit) {
        var c :| c in acl && c.group == g && c.mode.Has(bit);
        assert c in acl + [ace];
      }
    }
    if TraverseOnlyAcl(acl + [ace]) {
      forall c | c in acl ensures c.mode == TraverseOnly {
        assert c in acl + [ace];
      }
    }
  }

  lemma UpdateElements(u: Acl, idx: nat, merged: Ace)
    requires idx < |u|
    ensures var v := u[idx := merged];
            && merged in v && u[idx] in u
            && (forall c :: c in u ==> c == u[idx] || c in v)
            && (forall c :: c in v ==> c == merged || c in u)
  {
    var v := u[idx := merged];
    assert v[idx] == merged;
    forall c | c in u ensures c == u[idx] || c in v {
      var k :| 0 <= k < |u| && u[k] == c;
      assert k != idx ==> v[k] == c;
    }
    forall c | c in v ensures c == merged || c in u {
      var k :| 0 <= k < |v| && v[k] == c;
      assert k != idx ==> u[k] == c;
    }
  }

  lemma AllowsUpdate(u: Acl, idx: nat, ace: Ace)
    requires idx < |u| && u[idx].group == ace.group
    ensures var v := u[idx := Ace(u[idx].group, u[idx].mode.Or(ace.mode))];
            && Grantees(v) == Grantees(u)
            && (forall g, bit :: Allows(v, g, bit) <==> Allows(u, g, bit) || (g == ace.group && ace.mode.Has(bit)))
            && (TraverseOnlyAcl(u) && ace.mode == TraverseOnly ==> TraverseOnlyAcl(v))
  {
    var merged := Ace(u[idx].group, u[idx].mode.Or(ace.mode));
    var v := u[idx := merged];
    UpdateElements(u, idx, merged);
    forall g ensures g in Grantees(v) <==> g in Grantees(u) {
      if g in Grantees(u) { var c :| c in u && c.group == g; assert c in v || merged.group == g; }
      if g in Grantees(v) { var c :| c in v && c.group == g; assert c in u || u[idx].group == g; }
    }
    forall g, bit ensures Allows(v, g, bit) <==> Allows(u, g, bit) || (g == ace.group && ace.mode.Has(bit)) {
      if Allows(u, g, bit) {
        var c :| c in u && c.group == g && c.mode.Has(bit);
        assert c in v || (c == u[idx] && merged.mode.Has(bit));
      }
      if Allows(v, g, bit) {
        var c :| c in v && c.group == g && c.mode.Has(bit);
        assert c in u || c == merged;
      }
    }
  }

  // compileRealShares

  function Realpaths(fs: Bcpfs, shares: Exports): (r: seq<string>)
    ensures |r| == |shares|
    ensures forall i :: 0 <= i < |shares| ==> r[i] == fs.Realpath(shares[i].path)
  {
    if shares == [] then [] else [fs.Realpath(shares[0].path)] + Realpaths(fs, shares[1..])
  }

  /** The distinct elements in order of their first occurrence. */
  ghost function FirstOccurrences(s: seq<string>): (r: seq<string>)
    ensures NoDuplicates(r) && Elements(r) == Elements(s)
  {
    if s == [] then []
    else
      var n := |s| - 1;
      var t := FirstOccurrences(s[..n]);
      assert Elements(s) == Elements(s[..n]) + {s[n]} by { assert s == s[..n] + [s[n]]; }
      assert Elements(t + [s[n]]) == Elements(t) + {s[n]} by { AppendElements(t, s[n]); }
      assert s[n] !in t ==> s[n] !in Elements(t);
      if s[n] in t then t else t + [s[n]]
  }

  lemma AppendElements<T>(t: seq<T>, x: T)
    ensures Elements(t + [x]) == Elements(t) + {x}
  {
    forall y | y in Elements(t) + {x} ensures y in t + [x] {
      if y == x { assert (t + [x])[|t|] == x; } else { assert y in t; }
    }
  }

  /** The map from keys to list positions that the compiler maintains beside a
      growing list. */
  predicate IsIndex(index: map<string, nat>, keys: seq<string>) {
    && (forall i :: 0 <= i < |keys| ==> keys[i] in index)
    && (forall k :: k in index ==> index[k] < |keys| && keys[index[k]] == k)
  }

  lemma IndexAppend(index: map<string, nat>, keys: seq<string>, k: string)
    requires IsIndex(index, keys) && k !in index
    ensures IsIndex(index[k := |keys|], keys + [k]) && k !in keys
  {
  }

  lemma PathsAppend(reals: Exports, r: ExportEntry)
    ensures PathsOf(reals + [r]) == PathsOf(reals) + [r.path]
  {
  }

  /** Some share that maps to realpath `rp` allows group `g` the access `bit`. */
  ghost predicate ShareAllows(fs: Bcpfs, shares: Exports, rp: string, g: string, bit: Bit) {
    exists s :: s in shares && fs.Realpath(s.path) == rp && Allows(s.acl, g, bit)
  }

  ghost predicate ShareGrants(fs: Bcpfs, shares: Exports, rp: string, g: string) {
    exists s :: s in shares && fs.Realpath(s.path) == rp && g in Grantees(s.acl)
  }

  ghost predicate ShareManaged(fs: Bcpfs, shares: Exports, rp: string, managing: seq<Group>) {
    exists s :: s in shares && fs.Realpath(s.path) == rp && s.managing == managing
  }

  /** `r` merges the shares that map to its realpath. */
  ghost predicate Merged(fs: Bcpfs, shares: Exports, r: ExportEntry) {
    && ShareManaged(fs, shares, r.path, r.managing)
    && (forall g, bit :: Allows(r.acl, g, bit) <==> ShareAllows(fs, shares, r.path, g, bit))
    && (forall g :: g in Grantees(r.acl) <==> ShareGrants(fs, shares, r.path, g))
  }

  ghost predicate IsRealShares(fs: Bcpfs, shares: Exports, reals: Exports) {
    && PathsOf(reals) == FirstOccurrences(Realpaths(fs, shares))
    && (forall r :: r in reals ==> Merged(fs, shares, r))
    && (forall r :: r in reals ==> Starts(fs, shares, r))
  }

  /** The first share of a realpath. */
  ghost predicate FirstAt(fs: Bcpfs, shares: Exports, rp: string, k: nat) {
    k < |shares| && fs.Realpath(shares[k].path) == rp && forall j :: 0 <= j < k ==> fs.Realpath(shares[j].path) != rp
  }

  /** `r` takes its managing groups from its first share. The last entry of a group merges
      its last one there with all that later shares of the realpath list for it. */
  ghost predicate StartsFrom(fs: Bcpfs, shares: Exports, r: ExportEntry, k: nat) {
    && FirstAt(fs, shares, r.path, k) && r.managing == shares[k].managing
    && (forall g, bit :: g in Grantees(r.acl) ==>
          (LastMode(r.acl, g).Has(bit) <==>
           (g in Grantees(shares[k].acl) && LastMode(shares[k].acl, g).Has(bit)) || LaterAllows(fs, shares, r.path, k, g, bit)))
    && (ListsEachOnce(shares[k].acl) ==> ListsEachOnce(r.acl))
  }

  ghost predicate LaterAllows(fs: Bcpfs, shares: Exports, rp: string, k: nat, g: string, bit: Bit) {
    exists j :: k < j < |shares| && fs.Realpath(shares[j].path) == rp && Allows(shares[j].acl, g, bit)
  }

  lemma LaterStep(fs: Bcpfs, shares: Exports, s: ExportEntry, rp: string, k: nat, g: string, bit: Bit)
    requires k < |shares|
    ensures LaterAllows(fs, shares + [s], rp, k, g, bit) <==>
            LaterAllows(fs, shares, rp, k, g, bit) || (fs.Realpath(s.path) == rp && Allows(s.acl, g, bit))
  {
    hide Allows, Bcpfs.Realpath;
    var all := shares + [s];
    assert all[|shares|] == s && forall j :: 0 <= j < |shares| ==> all[j] == shares[j];
    if LaterAllows(fs, shares, rp, k, g, bit) {
      var j :| k < j < |shares| && fs.Realpath(shares[j].path) == rp && Allows(shares[j].acl, g, bit);
      assert all[j] == shares[j];
    }
  }

  lemma StartsFirst(fs: Bcpfs, shares: Exports, s: ExportEntry)
    requires fs.Realpath(s.path) !in Realpaths(fs, shares)
    ensures Starts(fs, shares + [s], ExportEntry(fs.Realpath(s.path), s.acl, s.managing))
  {
    hide Allows, Grantees, LastMode, Bcpfs.Realpath;
    var all := shares + [s];
    forall j | 0 <= j < |shares| ensures fs.Realpath(all[j].path) != fs.Realpath(s.path) {
      assert all[j] == shares[j] && Realpaths(fs, shares)[j] == fs.Realpath(shares[j].path);
    }
    assert StartsFrom(fs, all, ExportEntry(fs.Realpath(s.path), s.acl, s.managing), |shares|);
  }

  lemma StartsStep(fs: Bcpfs, shares: Exports, s: ExportEntry, r: ExportEntry, r': ExportEntry, k: nat)
    requires StartsFrom(fs, shares, r, k) && Merged(fs, shares, r) && r'.path == r.path && r'.managing == r.managing
    requires if fs.Realpath(s.path) == r.path then IsUnion(r'.acl, r.acl, s.acl) else r'.acl == r.acl
    ensures StartsFrom(fs, shares + [s], r', k)
  {
    var all := shares + [s];
    assert all[k] == shares[k] && forall j :: 0 <= j < |shares| ==> all[j] == shares[j];
    hide Allows, Grantees, LastMode, Bcpfs.Realpath, LaterAllows, KeepsEntries;
    forall g, bit
      ensures LaterAllows(fs, all, r.path, k, g, bit) <==>
              LaterAllows(fs, shares, r.path, k, g, bit) || (fs.Realpath(s.path) == r.path && Allows(s.acl, g, bit))
    {
      LaterStep(fs, shares, s, r.path, k, g, bit);
    }
    if fs.Realpath(s.path) == r.path {
      if ListsEachOnce(r.acl) { UnionListsOnce(r'.acl, r.acl, s.acl); }
      forall g, bit | g in Grantees(r'.acl)
        ensures LastMode(r'.acl, g).Has(bit) <==>
                (g in Grantees(shares[k].acl) && LastMode(shares[k].acl, g).Has(bit)) || LaterAllows(fs, all, r.path, k, g, bit)
      {
        if g !in Grantees(r.acl) { NewGrantee(fs, shares, r, k, g); }
      }
    }
  }

  /** A group that `r` does not list is listed by none of its shares. */
  lemma NewGrantee(fs: Bcpfs, shares: Exports, r: ExportEntry, k: nat, g: string)
    requires Merged(fs, shares, r) && FirstAt(fs, shares, r.path, k) && g !in Grantees(r.acl)
    ensures g !in Grantees(shares[k].acl) && forall bit :: !LaterAllows(fs, shares, r.path, k, g, bit)
  {
    hide Bcpfs.Realpath;
    assert !ShareGrants(fs, shares, r.path, g);
    assert shares[k] in shares;
    assert forall j :: 0 <= j < |shares| ==> shares[j] in shares;
  }

  lemma MergedStep(fs: Bcpfs, shares: Exports, s: ExportEntry, r: ExportEntry, r': ExportEntry)
    requires Merged(fs, shares, r) && r'.path == r.path && r'.managing == r.managing
    requires if fs.Realpath(s.path) == r.path then
               IsUnion(r'.acl, r.acl, s.acl)
             else r'.acl == r.acl
    ensures Merged(fs, shares + [s], r')
  {
    var all := shares + [s];
    assert forall e :: e in all <==> e in shares || e == s;
    var m :| m in shares && fs.Realpath(m.path) == r.path && m.managing == r.managing;
    assert m in all;
    forall g, bit ensures Allows(r'.acl, g, bit) <==> ShareAllows(fs, all, r.path, g, bit) {
      if ShareAllows(fs, shares, r.path, g, bit) {
        var e :| e in shares && fs.Realpath(e.path) == r.path && Allows(e.acl, g, bit);
        assert e in all;
      }
    }
    forall g ensures g in Grantees(r'.acl) <==> ShareGrants(fs, all, r.path, g) {
      if ShareGrants(fs, shares, r.path, g) {
        var e :| e in shares && fs.Realpath(e.path) == r.path && g in Grantees(e.acl);
        assert e in all;
      }
    }
  }

  lemma MergedFirst(fs: Bcpfs, shares: Exports, s: ExportEntry)
    requires fs.Realpath(s.path) !in Realpaths(fs, shares)
    ensures Merged(fs, shares + [s], ExportEntry(fs.Realpath(s.path), s.acl, s.managing))
  {
    var all := shares + [s];
    assert s in all;
    forall e | e in all && fs.Realpath(e.path) == fs.Realpath(s.path) ensures e == s {
      var i :| 0 <= i < |all| && all[i] == e;
      if i < |shares| { assert Realpaths(fs, shares)[i] == fs.Realpath(s.path); }
    }
  }

  lemma RealpathsStep(fs: Bcpfs, shares: Exports, i: nat)
    requires i < |shares|
    ensures shares[..i + 1] == shares[..i] + [shares[i]]
    ensures Realpaths(fs, shares[..i + 1]) == Realpaths(fs, shares[..i]) + [fs.Realpath(shares[i].path)]
    ensures FirstOccurrences(Realpaths(fs, shares[..i + 1])) ==
            var t := FirstOccurrences(Realpaths(fs, shares[..i]));
            var rp := fs.Realpath(shares[i].path);
            if rp in t then t else t + [rp]
  {
    var longer := Realpaths(fs, shares[..i + 1]);
    assert longer[..i] == Realpaths(fs, shares[..i]);
  }

  ghost predicate AllMerged(fs: Bcpfs, shares: Exports, reals: Exports) {
    forall k :: 0 <= k < |reals| ==> Merged(fs, shares, reals[k]) && Starts(fs, shares, reals[k])
  }

  ghost predicate Starts(fs: Bcpfs, shares: Exports, r: ExportEntry) {
    exists k: nat :: StartsFrom(fs, shares, r, k)
  }

  lemma MergedStarts(fs: Bcpfs, shares: Exports, s: ExportEntry, r: ExportEntry, r': ExportEntry)
    requires Starts(fs, shares, r) && Merged(fs, shares, r) && r'.path == r.path && r'.managing == r.managing
    requires if fs.Realpath(s.path) == r.path then IsUnion(r'.acl, r.acl, s.acl) else r'.acl == r.acl
    ensures Merged(fs, shares + [s], r') && Starts(fs, shares + [s], r')
  {
    hide Merged, StartsFrom, IsUnion;
    MergedStep(fs, shares, s, r, r');
    var k: nat :| StartsFrom(fs, shares, r, k);
    StartsStep(fs, shares, s, r, r', k);
  }

  lemma NoOccurrences()
    ensures FirstOccurrences([]) == []
  {
  }

  lemma UpdateMerged(fs: Bcpfs, shares: Exports, s: ExportEntry, reals: Exports, idx: nat, acl: Acl)
    requires AllMerged(fs, shares, reals) && NoDuplicates(PathsOf(reals))
    requires idx < |reals| && reals[idx].path == fs.Realpath(s.path)
    requires IsUnion(acl, reals[idx].acl, s.acl)
    ensures AllMerged(fs, shares + [s], reals[idx := reals[idx].(acl := acl)])
    ensures PathsOf(reals[idx := reals[idx].(acl := acl)]) == PathsOf(reals)
  {
    var reals' := reals[idx := reals[idx].(acl := acl)];
    hide Merged, Starts, IsUnion;
    forall k | 0 <= k < |reals| ensures Merged(fs, shares + [s], reals'[k]) && Starts(fs, shares + [s], reals'[k]) {
      if k != idx { assert PathsOf(reals)[k] != PathsOf(reals)[idx]; }
      MergedStarts(fs, shares, s, reals[k], reals'[k]);
    }
  }

  lemma AppendMerged(fs: Bcpfs, shares: Exports, s: ExportEntry, reals: Exports)
    requires AllMerged(fs, shares, reals) && fs.Realpath(s.path) !in PathsOf(reals)
    requires Elements(PathsOf(reals)) == Elements(Realpaths(fs, shares))
    ensures AllMerged(fs, shares + [s], reals + [ExportEntry(fs.Realpath(s.path), s.acl, s.managing)])
  {
    assert fs.Realpath(s.path) !in Elements(PathsOf(reals));
    assert fs.Realpath(s.path) !in Realpaths(fs, shares);
    MergedFirst(fs, shares, s);
    StartsFirst(fs, shares, s);
    hide Merged, Starts, IsUnion, Bcpfs.Realpath;
    StillMerged(fs, shares, s, reals);
  }

  lemma StillMerged(fs: Bcpfs, shares: Exports, s: ExportEntry, reals: Exports)
    requires AllMerged(fs, shares, reals) && fs.Realpath(s.path) !in PathsOf(reals)
    ensures AllMerged(fs, shares + [s], reals)
  {
    hide Merged, Starts, IsUnion, Bcpfs.Realpath;
    forall k | 0 <= k < |reals| ensures Merged(fs, shares + [s], reals[k]) && Starts(fs, shares + [s], reals[k]) {
      OtherPath(reals, k, fs.Realpath(s.path));
      MergedStarts(fs, shares, s, reals[k], reals[k]);
    }
  }

  lemma OtherPath(reals: Exports, k: nat, rp: string)
    requires k < |reals| && rp !in PathsOf(reals)
    ensures reals[k].path != rp
  {
    assert PathsOf(reals)[k] == reals[k].path;
  }

  /** The list of real shares so far and its index. */
  ghost predicate Merging(fs: Bcpfs, shares: Exports, reals: Exports, index: map<string, nat>) {
    && PathsOf(reals) == FirstOccurrences(Realpaths(fs, shares))
    && IsIndex(index, PathsOf(reals))
    && AllMerged(fs, shares, reals)
  }

  lemma MergingUpdate(fs: Bcpfs, shares: Exports, i: nat, reals: Exports, index: map<string, nat>, acl: Acl)
    requires i < |shares| && Merging(fs, shares[..i], reals, index)
    requires var rp := fs.Realpath(shares[i].path); rp in index && index[rp] < |reals| && IsUnion(acl, reals[index[rp]].acl, shares[i].acl)
    ensures var idx := index[fs.Realpath(shares[i].path)];
            Merging(fs, shares[..i + 1], reals[idx := reals[idx].(acl := acl)], index)
  {
    hide Merged, FirstOccurrences, IsUnion;
    var rp := fs.Realpath(shares[i].path);
    RealpathsStep(fs, shares, i);
    assert PathsOf(reals)[index[rp]] == rp;
    UpdateMerged(fs, shares[..i], shares[i], reals, index[rp], acl);
  }

  lemma MergingAppend(fs: Bcpfs, shares: Exports, i: nat, reals: Exports, index: map<string, nat>)
    requires i < |shares| && Merging(fs, shares[..i], reals, index) && fs.Realpath(shares[i].path) !in index
    ensures var rp := fs.Realpath(shares[i].path);
            Merging(fs, shares[..i + 1], reals + [ExportEntry(rp, shares[i].acl, shares[i].managing)], index[rp := |reals|])
  {
    hide Merged, FirstOccurrences, IsUnion;
    var rp := fs.Realpath(shares[i].path);
    RealpathsStep(fs, shares, i);
    AppendMerged(fs, shares[..i], shares[i], reals);
    IndexAppend(index, PathsOf(reals), rp);
    PathsAppend(reals, ExportEntry(rp, shares[i].acl, shares[i].managing));
  }

  lemma MergingStart(fs: Bcpfs, shares: Exports)
    ensures Merging(fs, shares[..0], [], map[]) && shares[..|shares|] == shares
  {
    NoOccurrences();
    assert shares[..0] == [] && Realpaths(fs, []) == [];
  }

  lemma MergingIndex(fs: Bcpfs, shares: Exports, reals: Exports, index: map<string, nat>, rp: string)
    requires Merging(fs, shares, reals, index)
    ensures rp in index ==> index[rp] < |reals|
  {
  }

  lemma MergingDone(fs: Bcpfs, shares: Exports, reals: Exports, index: map<string, nat>)
    requires Merging(fs, shares, reals, index)
    ensures IsRealShares(fs, shares, reals)
  {
    MergedAll(fs, shares, reals);
  }

  /** The first share of a realpath passes its own slice on, which the merging loop must
      not write: every array is either a share's, and unchanged, or new. */
  method CompileRealShares(fs: Bcpfs, shares: SliceExports) returns (reals: SliceExports)
    requires AllOk(shares)
    ensures AllOk(reals) && IsRealShares(fs, Views(shares), Views(reals))
    ensures forall k :: 0 <= k < |reals| ==> reals[k].acl.arr in Arrays(shares) || fresh(reals[k].acl.arr)
    ensures forall s :: 0 <= s < |shares| ==> shares[s].acl.arr[..] == old(shares[s].acl.arr[..])
    ensures Views(shares) == old(Views(shares))
  {
    hide Merging, IsUnion, IsRealShares, Views;
    ghost var vs := Views(shares);
    label Start:
    reals := [];
    var index: map<string, nat> := map[];
    MergingStart(fs, vs);
    NoViews();
    for i := 0 to |shares|
      invariant AllOk(reals) && Merging(fs, vs[..i], Views(reals), index)
      invariant forall k :: 0 <= k < |reals| ==> reals[k].acl.arr in Arrays(shares) || fresh(reals[k].acl.arr)
    {
      var shr := shares[i];
      var rp := fs.Realpath(shr.path);
      ViewsPrefix(shares, i);
      ghost var before := Views(reals);
      MergingIndex(fs, vs[..i], before, index, rp);
      if rp in index {
        var idx := index[rp];
        label L:
        var acl := Union(reals[idx].acl, shr.acl);
        SameViews@L(reals);
        MergingUpdate(fs, vs, i, before, index, acl.View());
        ViewsUpdate(reals, idx, acl);
        reals := reals[idx := reals[idx].(acl := acl)];
      } else {
        MergingAppend(fs, vs, i, before, index);
        ViewsAppend(reals, SliceEntry(rp, shr.acl, shr.managing));
        index := index[rp := |reals|];
        reals := reals + [SliceEntry(rp, shr.acl, shr.managing)];
      }
    }
    SameViews@Start(shares);
    assert vs[..|shares|] == vs;
    MergingDone(fs, vs, Views(reals), index);
  }

  lemma MergedAll(fs: Bcpfs, shares: Exports, reals: Exports)
    requires AllMerged(fs, shares, reals)
    ensures forall r :: r in reals ==> Merged(fs, shares, r) && Starts(fs, shares, r)
  {
    hide Merged, Starts;
    forall r | r in reals ensures Merged(fs, shares, r) && Starts(fs, shares, r) {
      var k :| 0 <= k < |reals| && reals[k] == r;
    }
  }

  /** Some exported entry for realpath `rp` gives `g` the access `bit` and its
      first matching import rule accepts. */
  ghost predicate ImportedExportAllows(
    fs: Bcpfs, exps: Exports, imps: ImportFilter, rp: string, g: string, bit: Bit)
  {
    exists e, ace :: e in exps && ace in e.acl && fs.Realpath(e.path) == rp
      && ace.group == g && ace.mode.Has(bit) && FirstMatchAccepts(imps, e.path, ace)
  }

  /** Compilation preserves meaning: the realpath ACLs allow precisely what the
      imported export entries say. */
  lemma CompilationMeaning(
    fs: Bcpfs, exps: Exports, imps: ImportFilter, reals: Exports, r: ExportEntry, g: string, bit: Bit)
    requires IsRealShares(fs, Selected(exps, imps), reals) && r in reals
    ensures Allows(r.acl, g, bit) <==> ImportedExportAllows(fs, exps, imps, r.path, g, bit)
  {
    var shares := Selected(exps, imps);
    assert Merged(fs, shares, r);
    if Allows(r.acl, g, bit) {
      var s :| s in shares && fs.Realpath(s.path) == r.path && Allows(s.acl, g, bit);
      var ace :| ace in s.acl && ace.group == g && ace.mode.Has(bit);
      InSelected(s, exps, imps);
      var e :| e in exps && s in SelectedExport(e, imps);
      InAccepted(ace, e.acl, e.path, imps);
      FilterIsFirstMatch(imps, e.path, ace);
    }
    if ImportedExportAllows(fs, exps, imps, r.path, g, bit) {
      var e, ace :| e in exps && ace in e.acl && fs.Realpath(e.path) == r.path
        && ace.group == g && ace.mode.Has(bit) && FirstMatchAccepts(imps, e.path, ace);
      ImportedIsShared(exps, imps, e, ace);
      var s := e.(acl := AcceptedAcl(e.acl, e.path, imps));
      assert Allows(s.acl, g, bit);
      assert ShareAllows(fs, shares, r.path, g, bit);
    }
  }

  lemma ImportedIsShared(exps: Exports, imps: ImportFilter, e: ExportEntry, ace: Ace)
    requires e in exps && ace in e.acl && FirstMatchAccepts(imps, e.path, ace)
    ensures ace in AcceptedAcl(e.acl, e.path, imps)
    ensures e.(acl := AcceptedAcl(e.acl, e.path, imps)) in Selected(exps, imps)
  {
    FilterIsFirstMatch(imps, e.path, ace);
    InAccepted(ace, e.acl, e.path, imps);
    var s := e.(acl := AcceptedAcl(e.acl, e.path, imps));
    assert s in SelectedExport(e, imps);
    InSelected(s, exps, imps);
  }

  /** A group that is listed once has in its entry all that the ACL allows it. */
  lemma OnceMeans(acl: Acl, g: string)
    requires ListsOnce(acl, g) && g in Grantees(acl)
    ensures forall bit :: LastMode(acl, g).Has(bit) <==> Allows(acl, g, bit)
  {
    LastModeIn(acl, g);
    var k :| 0 <= k < |acl| && acl[k] == Ace(g, LastMode(acl, g));
    forall bit | Allows(acl, g, bit) ensures LastMode(acl, g).Has(bit) {
      var ace :| ace in acl && ace.group == g && ace.mode.Has(bit);
      var l :| 0 <= l < |acl| && acl[l] == ace;
      assert k == l;
    }
  }

  /** If every export of the realpath lists each group once, the entry that counts gives
      exactly what is imported. */
  lemma ImportedModes(fs: Bcpfs, exps: Exports, imps: ImportFilter, reals: Exports, r: ExportEntry, g: string)
    requires IsRealShares(fs, Selected(exps, imps), reals) && r in reals && g in Grantees(r.acl)
    requires forall e :: e in exps && fs.Realpath(e.path) == r.path ==> ListsEachOnce(e.acl)
    ensures ListsEachOnce(r.acl)
    ensures forall bit :: LastMode(r.acl, g).Has(bit) <==> ImportedExportAllows(fs, exps, imps, r.path, g, bit)
  {
    hide Bcpfs.Realpath, ImportedExportAllows, Merged, Selected;
    var shares := Selected(exps, imps);
    var k: nat :| StartsFrom(fs, shares, r, k);
    SharedIff(exps, imps, shares[k]);
    var e :| e in exps && shares[k] == e.(acl := AcceptedAcl(e.acl, e.path, imps));
    AcceptedOnce(e.acl, e.path, imps);
    OnceMeans(r.acl, g);
    forall bit ensures Allows(r.acl, g, bit) <==> ImportedExportAllows(fs, exps, imps, r.path, g, bit) {
      CompilationMeaning(fs, exps, imps, reals, r, g, bit);
    }
  }
}
