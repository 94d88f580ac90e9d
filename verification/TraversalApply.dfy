/** EnsureTraversal: adding the `--x` entries, and when the whole sharing pass has
    nothing left to do. */
module TraversalApply {
  import opened Strings
  import opened Paths
  import opened Sharing
  import opened AclStore
  import opened SharingAclApply

  type Pairs = set<(string, string)>

  predicate HasTraverse(acl: FileAcl, g: string) {
    g in acl.access.named && acl.access.named[g] == TraverseOnly
  }

  /** The (path, filesystem group) pairs of one traversal entry whose `--x` entry
      is missing. */
  function PendingAt(acl: FileAcl, fs: Bcpfs, path: string, entries: Acl): Pairs {
    set ace | ace in entries && !HasTraverse(acl, fs.FsGroupOrgUnit(ace.group)) ::
      (path, fs.FsGroupOrgUnit(ace.group))
  }

  function Pending(acls: Acls, fs: Bcpfs, travs: Exports): Pairs {
    if travs == [] then {}
    else
      var t := travs[|travs| - 1];
      Pending(acls, fs, travs[..|travs| - 1])
      + if IsDirAcl(acls, t.path) then PendingAt(acls[t.path], fs, t.path, t.acl) else {}
  }

  lemma {:induction false} InPending(acls: Acls, fs: Bcpfs, travs: Exports, p: string, g: string)
    ensures (p, g) in Pending(acls, fs, travs) <==>
            && IsDirAcl(acls, p) && !HasTraverse(acls[p], g)
            && exists t, ace :: t in travs && t.path == p && ace in t.acl && g == fs.FsGroupOrgUnit(ace.group)
  {
    if travs != [] {
      var n := |travs| - 1;
      InPending(acls, fs, travs[..n], p, g);
      assert travs == travs[..n] + [travs[n]];
      assert forall t :: t in travs <==> t in travs[..n] || t == travs[n];
    }
  }

  function GroupsAt(pairs: Pairs, p: string): set<string> {
    set pair | pair in pairs && pair.0 == p :: pair.1
  }

  function AddTraverse(acl: FileAcl, gs: set<string>): FileAcl {
    if gs == {} then acl
    else
      acl.(access := acl.access.(
             named := acl.access.named + map g | g in gs :: TraverseOnly,
             mask := if acl.access.mask.None? then Some(acl.access.group) else acl.access.mask))
  }

  /** The ACLs after `--x` was added for the pairs. */
  function AfterPairs(acls: Acls, pairs: Pairs): Acls {
    map p | p in acls :: AddTraverse(acls[p], GroupsAt(pairs, p))
  }

  function PathPairs(paths: seq<string>, g: string): Pairs {
    set p | p in paths :: (p, g)
  }

  function BatchPairs(byGroup: map<string, seq<string>>): Pairs {
    set g, p | g in byGroup && p in byGroup[g] :: (p, g)
  }

  // Batching by group

  function Batched(byGroup: map<string, seq<string>>, g: string): seq<string> {
    if g in byGroup then byGroup[g] else []
  }

  predicate NoEmptyBatch(byGroup: map<string, seq<string>>) {
    forall g :: g in byGroup ==> byGroup[g] != []
  }

  lemma BatchOneMore(byGroup: map<string, seq<string>>, p: string, g: string)
    requires NoEmptyBatch(byGroup)
    ensures var more := byGroup[g := Batched(byGroup, g) + [p]];
            BatchPairs(more) == BatchPairs(byGroup) + {(p, g)} && NoEmptyBatch(more)
  {
    var more := byGroup[g := Batched(byGroup, g) + [p]];
    assert forall q :: q in more[g] <==> q in Batched(byGroup, g) || q == p;
    forall q, h ensures (q, h) in BatchPairs(more) <==> (q, h) in BatchPairs(byGroup) + {(p, g)} {
      assert (q, h) in BatchPairs(byGroup) <==> h in byGroup && q in byGroup[h];
      assert (q, h) in BatchPairs(more) <==> h in more && q in more[h];
    }
  }

  method CollectPairs(acl: FileAcl, fs: Bcpfs, facl: Facl, path: string, entries: Acl, before: map<string, seq<string>>)
    returns (byGroup: map<string, seq<string>>)
    requires Lists(facl, acl) && DesiredOk(AsFacl(fs, entries)) && NoEmptyBatch(before)
    ensures BatchPairs(byGroup) == BatchPairs(before) + PendingAt(acl, fs, path, entries) && NoEmptyBatch(byGroup)
  {
    byGroup := before;
    var have := NormalLines(facl);
    hide BatchPairs, PendingAt, Lists, HasTraverse, NoEmptyBatch, Batched;
    NothingPending(acl, fs, path, entries);
    for i := 0 to |entries|
      invariant BatchPairs(byGroup) == BatchPairs(before) + PendingAt(acl, fs, path, entries[..i])
      invariant NoEmptyBatch(byGroup)
    {
      var fsGroup := fs.FsGroupOrgUnit(entries[i].group);
      var aceStr := "group:" + fsGroup + ":--x";
      assert AsFacl(fs, entries)[i] in AsFacl(fs, entries);
      TraverseLine(facl, acl, have, fsGroup);
      PendingOneMore(acl, fs, path, entries, i);
      if aceStr !in have {
        BatchOneMore(byGroup, path, fsGroup);
        byGroup := byGroup[fsGroup := Batched(byGroup, fsGroup) + [path]];
      }
    }
    assert entries[..|entries|] == entries;
  }

  /** The printed named group entries of the access ACL. */
  method NormalLines(facl: Facl) returns (have: set<string>)
    ensures forall s :: s in have <==> exists k :: 0 <= k < |facl| && facl[k].IsNamedGroupNormal() && facl[k].String() == s
  {
    have := {};
    for i := 0 to |facl|
      invariant forall s :: s in have <==> exists k :: 0 <= k < i && facl[k].IsNamedGroupNormal() && facl[k].String() == s
    {
      if facl[i].IsNamedGroupNormal() { have := have + {facl[i].String()}; }
    }
  }

  lemma NothingPending(acl: FileAcl, fs: Bcpfs, path: string, entries: Acl)
    ensures PendingAt(acl, fs, path, entries[..0]) == {}
  {
  }

  lemma PendingOneMore(acl: FileAcl, fs: Bcpfs, path: string, entries: Acl, i: nat)
    requires i < |entries|
    ensures PendingAt(acl, fs, path, entries[..i + 1]) ==
            PendingAt(acl, fs, path, entries[..i]) +
            if HasTraverse(acl, fs.FsGroupOrgUnit(entries[i].group)) then {}
            else {(path, fs.FsGroupOrgUnit(entries[i].group))}
  {
    assert entries[..i + 1] == entries[..i] + [entries[i]];
    assert forall ace :: ace in entries[..i + 1] <==> ace in entries[..i] || ace == entries[i];
  }

  lemma TraverseLine(facl: Facl, acl: FileAcl, have: set<string>, g: string)
    requires Lists(facl, acl) && GroupNameOk(g)
    requires forall s :: s in have <==> exists k :: 0 <= k < |facl| && facl[k].IsNamedGroupNormal() && facl[k].String() == s
    ensures "group:" + g + ":--x" in have <==> HasTraverse(acl, g)
  {
    var line := FaclAce("group:" + g, TraverseOnly);
    assert line.String() == "group:" + g + ":--x";
    NamedLine(acl, g, TraverseOnly);
    if line.String() in have {
      var k :| 0 <= k < |facl| && facl[k].IsNamedGroupNormal() && facl[k].String() == line.String();
      StringInjective(facl[k], line);
      assert line in facl;
    }
    if line in AllNamedLines(acl) {
      var k :| 0 <= k < |facl| && facl[k] == line;
    }
  }

  // Writing

  lemma TraverseStep(acls: Acls, pairs: Pairs, paths: seq<string>, g: string)
    ensures ApplyOp(AfterPairs(acls, pairs), Traverse(paths, g)) == AfterPairs(acls, pairs + PathPairs(paths, g))
  {
    var before, after := AfterPairs(acls, pairs), AfterPairs(acls, pairs + PathPairs(paths, g));
    var applied := ApplyOp(before, Traverse(paths, g));
    forall p | p in acls ensures applied[p] == after[p] {
      GroupsAtMore(pairs, paths, g, p);
      AddTraverseMore(acls[p], GroupsAt(pairs, p), g);
    }
  }

  lemma GroupsAtMore(pairs: Pairs, paths: seq<string>, g: string, p: string)
    ensures GroupsAt(pairs + PathPairs(paths, g), p) ==
            if p in paths then GroupsAt(pairs, p) + {g} else GroupsAt(pairs, p)
  {
    if p in paths { assert (p, g) in PathPairs(paths, g); }
  }

  lemma AddTraverseMore(acl: FileAcl, gs: set<string>, g: string)
    ensures AddTraverse(acl, gs + {g}) ==
            var a := AddTraverse(acl, gs); a.(access := SetNamed(a.access, g, TraverseOnly))
  {
    var a := AddTraverse(acl, gs);
    assert AddTraverse(acl, gs + {g}).access.named == a.access.named[g := TraverseOnly];
  }

  /** One command for every group, which together write the pairs. */
  ghost predicate Batches(ops: seq<AclOp>, pairs: Pairs) {
    && (forall i :: 0 <= i < |ops| ==> ops[i].Traverse? && ops[i].paths != [])
    && (forall i, j :: 0 <= i < j < |ops| ==> ops[i].group != ops[j].group)
    && (forall p, g :: (p, g) in pairs <==> exists i :: 0 <= i < |ops| && ops[i].group == g && p in ops[i].paths)
  }

  /** The commands for the groups that are done. */
  ghost predicate Emitted(ops: seq<AclOp>, byGroup: map<string, seq<string>>, todo: set<string>) {
    && (forall i :: 0 <= i < |ops| ==>
          ops[i].Traverse? && ops[i].group in byGroup && ops[i].group !in todo && ops[i].paths == byGroup[ops[i].group])
    && (forall i, j :: 0 <= i < j < |ops| ==> ops[i].group != ops[j].group)
    && (forall g :: g in byGroup && g !in todo ==> exists i :: 0 <= i < |ops| && ops[i].group == g)
  }

  lemma EmitOne(ops: seq<AclOp>, byGroup: map<string, seq<string>>, todo: set<string>, g: string)
    requires Emitted(ops, byGroup, todo) && todo <= byGroup.Keys && g in todo
    ensures Emitted(ops + [Traverse(byGroup[g], g)], byGroup, todo - {g})
  {
    var more := ops + [Traverse(byGroup[g], g)];
    forall h | h in byGroup && h !in todo - {g} ensures exists i :: 0 <= i < |more| && more[i].group == h {
      if h == g {
        assert more[|ops|].group == h;
      } else {
        var i :| 0 <= i < |ops| && ops[i].group == h;
        assert more[i].group == h;
      }
    }
  }

  lemma EmittedAll(ops: seq<AclOp>, byGroup: map<string, seq<string>>)
    requires Emitted(ops, byGroup, {}) && NoEmptyBatch(byGroup)
    ensures Batches(ops, BatchPairs(byGroup))
  {
    forall p, g ensures (p, g) in BatchPairs(byGroup) <==> exists i :: 0 <= i < |ops| && ops[i].group == g && p in ops[i].paths {
      assert (p, g) in BatchPairs(byGroup) <==> g in byGroup && p in byGroup[g];
      if g in byGroup {
        var i :| 0 <= i < |ops| && ops[i].group == g;
      }
    }
  }

  lemma NoBatchesIff(ops: seq<AclOp>, pairs: Pairs)
    requires Batches(ops, pairs)
    ensures ops == [] <==> pairs == {}
  {
    if ops != [] {
      assert ops[0].paths[0] in ops[0].paths;
      assert (ops[0].paths[0], ops[0].group) in pairs;
    }
    if pairs != {} {
      var pair :| pair in pairs;
      assert (pair.0, pair.1) in pairs;
    }
  }

  /** The commands are one per group, in whatever order of groups, and write exactly the
      pending pairs. */
  method EnsureTraversal(disk: AclDisk, fs: Bcpfs, travs: Exports) returns (ok: bool, ghost ops: seq<AclOp>)
    requires forall p :: p in disk.acls ==> NamesOk(disk.acls[p])
    requires NamesFit(fs, travs)
    modifies disk
    ensures ok <==> AllReadable(old(disk.acls), travs)
    ensures !ok ==> disk.acls == old(disk.acls) && ops == []
    ensures disk.trace == old(disk.trace) + ops
    ensures ok ==> Batches(ops, Pending(old(disk.acls), fs, travs))
    ensures ok ==> disk.acls == AfterPairs(old(disk.acls), Pending(old(disk.acls), fs, travs))
  {
    hide AfterPairs, Pending, BatchPairs, Emitted, Batches, NamesOk, AllReadable, NoEmptyBatch;
    ghost var a0, t0 := disk.acls, disk.trace;
    ops := [];
    assert t0 + [] == t0;
    var readable, facls := GetfaclDirPaths(disk, travs);
    if !readable { return false, []; }

    var byGroup := BatchAll(disk.acls, fs, travs, facls);

    var todo := byGroup.Keys;
    BatchesDone(byGroup, todo);
    NothingEmitted(byGroup);
    NoPairs(a0);
    while todo != {}
      invariant todo <= byGroup.Keys && disk.acls == AfterPairs(a0, BatchPairs(byGroup - todo))
      invariant disk.trace == t0 + ops && Emitted(ops, byGroup, todo)
      decreases todo
    {
      var fsGroup :| fsGroup in todo;
      TraverseStep(a0, BatchPairs(byGroup - todo), byGroup[fsGroup], fsGroup);
      BatchDone(byGroup, todo, fsGroup);
      EmitOne(ops, byGroup, todo, fsGroup);
      AppendThree(t0, ops, [Traverse(byGroup[fsGroup], fsGroup)]);
      disk.Setfacl(Traverse(byGroup[fsGroup], fsGroup));
      ops := ops + [Traverse(byGroup[fsGroup], fsGroup)];
      todo := todo - {fsGroup};
    }
    assert byGroup - {} == byGroup;
    EmittedAll(ops, byGroup);
    return true, ops;
  }

  lemma NothingEmitted(byGroup: map<string, seq<string>>)
    ensures Emitted([], byGroup, byGroup.Keys)
  {
  }

  method BatchAll(acls: Acls, fs: Bcpfs, travs: Exports, facls: map<string, Facl>) returns (byGroup: map<string, seq<string>>)
    requires NamesFit(fs, travs)
    requires forall p :: p in facls <==> p in PathsOf(travs) && IsDirAcl(acls, p)
    requires forall p :: p in facls ==> p in acls && Lists(facls[p], acls[p])
    ensures BatchPairs(byGroup) == Pending(acls, fs, travs) && NoEmptyBatch(byGroup)
  {
    hide Lists, PendingAt, BatchPairs, DesiredOk, Pending, PathsOf, NoEmptyBatch, PathsPrint;
    byGroup := map[];
    BatchNothing(acls, fs, travs);
    for i := 0 to |travs|
      invariant BatchPairs(byGroup) == Pending(acls, fs, travs[..i]) && NoEmptyBatch(byGroup)
    {
      var tr := travs[i];
      assert tr in travs && PathsOf(travs)[i] == tr.path;
      PendingStep(acls, fs, travs, i);
      if tr.path in facls {
        byGroup := CollectPairs(acls[tr.path], fs, facls[tr.path], tr.path, tr.acl, byGroup);
      }
    }
  }

  lemma BatchNothing(acls: Acls, fs: Bcpfs, travs: Exports)
    ensures BatchPairs(map[]) == {} && Pending(acls, fs, travs[..0]) == {} && NoEmptyBatch(map[])
    ensures travs[..|travs|] == travs
  {
  }

  lemma PendingStep(acls: Acls, fs: Bcpfs, travs: Exports, i: nat)
    requires i < |travs|
    ensures Pending(acls, fs, travs[..i + 1]) ==
            Pending(acls, fs, travs[..i]) +
            if IsDirAcl(acls, travs[i].path) then PendingAt(acls[travs[i].path], fs, travs[i].path, travs[i].acl) else {}
  {
    assert travs[..i + 1][..i] == travs[..i];
  }

  lemma NoPairs(acls: Acls)
    ensures AfterPairs(acls, {}) == acls
  {
    assert forall p :: GroupsAt({}, p) == {};
  }

  lemma BatchesDone(byGroup: map<string, seq<string>>, todo: set<string>)
    requires todo == byGroup.Keys
    ensures BatchPairs(byGroup - todo) == {}
  {
  }

  lemma BatchDone(byGroup: map<string, seq<string>>, todo: set<string>, g: string)
    requires todo <= byGroup.Keys && g in todo
    ensures BatchPairs(byGroup - (todo - {g})) == BatchPairs(byGroup - todo) + PathPairs(byGroup[g], g)
  {
    var less, more := byGroup - todo, byGroup - (todo - {g});
    forall p, h ensures (p, h) in BatchPairs(more) <==> (p, h) in BatchPairs(less) + PathPairs(byGroup[g], g) {
      assert (p, h) in BatchPairs(more) <==> h in more && p in more[h];
      assert (p, h) in BatchPairs(less) <==> h in less && p in less[h];
      assert (p, h) in PathPairs(byGroup[g], g) <==> h == g && p in byGroup[g];
    }
  }
}
