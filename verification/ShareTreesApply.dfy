/** ensureShareTree: bringing one `<orgdir>/<ou>/shared` tree on disk to what the
    compiler wants. */
module ShareTreesApply {
  import opened Strings
  import opened Paths
  import opened Sharing
  import opened Nesting
  import opened ShareTrees
  import opened FileSystem
  import opened Reconcile

  function Abs(fs: Bcpfs, rel: string): string {
    fs.rootdir + "/" + rel
  }

  function DiskRoot(fs: Bcpfs, tree: ShareTree): string {
    Abs(fs, TreeRoot(fs, tree.orgUnit))
  }

  function NodeFor(target: string): Node {
    if target == "" then Dir else Link(target)
  }

  function FileEntry(fs: Bcpfs, f: ShareFile): Entry {
    Entry(Abs(fs, f.path), NodeFor(f.target))
  }

  function TreeEntries(fs: Bcpfs, files: seq<ShareFile>): (r: seq<Entry>)
    ensures |r| == |files|
    ensures forall i :: 0 <= i < |files| ==> r[i] == FileEntry(fs, files[i])
  {
    if files == [] then []
    else TreeEntries(fs, files[..|files| - 1]) + [FileEntry(fs, files[|files| - 1])]
  }

  // Compiled trees are layouts

  lemma AbsInjective(fs: Bcpfs, a: string, b: string)
    requires Abs(fs, a) == Abs(fs, b)
    ensures a == b
  {
    var n := |fs.rootdir| + 1;
    assert a == Abs(fs, a)[n..] == Abs(fs, b)[n..] == b;
  }

  /** The parent of a clean path below directory `d`. */
  lemma ParentBelow(d: string, q: string)
    requires RelPath(q)
    ensures ChildOf(d + "/" + q, Parent(d + "/" + q))
    ensures Parent(d + "/" + q) == if |Parts(q)| == 1 then d else d + "/" + Ancestor(q, |Parts(q)| - 1)
  {
    var n := |Parts(q)| - 1;
    var name := Parts(q)[n];
    if n == 0 {
      ConcatSplit(q, '/');
      assert q == name;
      MakeChild(d, q);
    } else {
      AncestorAll(q);
      assert Parts(q) == Parts(q)[..n] + [name];
      ConcatAppend(Parts(q)[..n], [name], '/');
      ConcatSplit(q, '/');
      var a := Ancestor(q, n);
      assert q == a + "/" + name;
      assert d + "/" + q == (d + "/" + a) + "/" + name;
      MakeChild(d + "/" + a, name);
    }
  }

  /** The share that puts file `f` into the tree: `f` is its link or one of the
      directories above it. */
  lemma FileOrigin(fs: Bcpfs, shares: Exports, t: ShareTree, f: ShareFile) returns (p: string, q: string)
    requires IsShareTree(fs, shares, t) && f in t.files
    requires forall s :: s in shares ==> RelPath(s.path)
    ensures SharedWith(shares, t.orgUnit, p) && RelPath(p) && (q == p || Below(p, q)) && RelPath(q)
    ensures f.path == SharedPath(fs, t.orgUnit, q)
    ensures f.target == if q == p then LinkTarget(p) else ""
  {
    p :| SharedWith(shares, t.orgUnit, p) && FileOfShare(fs, t.orgUnit, p, f);
    if f == ShareFile(SharedPath(fs, t.orgUnit, p), LinkTarget(p)) {
      q := p;
    } else {
      q :| Below(p, q) && f == ShareFile(SharedPath(fs, t.orgUnit, q), "");
      BelowIrreflexive(p);
      BelowIffAncestor(p, q);
      var i :| 0 < i < |Parts(p)| && q == Ancestor(p, i);
      JoinAncestor(p, i);
    }
  }

  lemma AbsShared(fs: Bcpfs, t: ShareTree, q: string)
    ensures Abs(fs, SharedPath(fs, t.orgUnit, q)) == DiskRoot(fs, t) + "/" + q
  {
  }

  /** A directory above what is shared is in the tree, before the files below it. */
  lemma DirBefore(fs: Bcpfs, shares: Exports, t: ShareTree, i: nat, p: string, q: string, a: string)
    requires IsShareTree(fs, shares, t) && i < |t.files|
    requires SharedWith(shares, t.orgUnit, p) && Below(p, a)
    requires t.files[i].path == SharedPath(fs, t.orgUnit, q) && Below(q, a)
    ensures exists j :: 0 <= j < i && t.files[j] == ShareFile(SharedPath(fs, t.orgUnit, a), "")
  {
    var g := ShareFile(SharedPath(fs, t.orgUnit, a), "");
    assert FileOfShare(fs, t.orgUnit, p, g);
    assert g in t.files;
    var j :| 0 <= j < |t.files| && t.files[j] == g;
    SharedBelow(fs, t.orgUnit, q, a);
    BelowLess(t.files[i].path, g.path);
    assert FilePaths(t.files)[j] == g.path;
    AscendingIndex(FilePaths(t.files), j, i);
  }

  lemma ParentInTree(fs: Bcpfs, shares: Exports, t: ShareTree, i: nat)
    requires IsShareTree(fs, shares, t) && i < |t.files|
    requires forall s :: s in shares ==> RelPath(s.path)
    ensures EntryBelow(DiskRoot(fs, t), FileEntry(fs, t.files[i]))
    ensures ParentFirst(DiskRoot(fs, t), TreeEntries(fs, t.files), i)
  {
    var f, root := t.files[i], DiskRoot(fs, t);
    assert f in t.files;
    var p, q := FileOrigin(fs, shares, t, f);
    AbsShared(fs, t, q);
    ParentBelow(root, q);
    var n := |Parts(q)| - 1;
    if n > 0 {
      var a := Ancestor(q, n);
      AncestorAll(q);
      AncestorNested(q, n, n + 1);
      if q != p { BelowTransitive(p, q, a); }
      DirBefore(fs, shares, t, i, p, q, a);
      var j :| 0 <= j < i && t.files[j] == ShareFile(SharedPath(fs, t.orgUnit, a), "");
      AbsShared(fs, t, a);
      assert TreeEntries(fs, t.files)[j] == Entry(Parent(Abs(fs, f.path)), Dir);
    }
  }

  lemma SharedBelow(fs: Bcpfs, ou: string, q: string, a: string)
    requires Below(q, a)
    ensures Below(SharedPath(fs, ou, q), SharedPath(fs, ou, a))
  {
    assert q == a + "/" + q[|a| + 1..];
    assert SharedPath(fs, ou, q) == SharedPath(fs, ou, a) + "/" + q[|a| + 1..];
  }

  /** Every compiled tree is a layout below its root: no path is both a directory
      and a link, all parents up to the root are directories of the tree and come
      first. */
  lemma TreeIsLayout(fs: Bcpfs, shares: Exports, t: ShareTree)
    requires IsShareTree(fs, shares, t)
    requires forall s :: s in shares ==> RelPath(s.path)
    ensures Layout(DiskRoot(fs, t), TreeEntries(fs, t.files))
  {
    var es := TreeEntries(fs, t.files);
    AscendingNoDuplicates(FilePaths(t.files));
    forall i, j | 0 <= i < j < |es| ensures es[i].path != es[j].path {
      assert FilePaths(t.files)[i] != FilePaths(t.files)[j];
      if es[i].path == es[j].path { AbsInjective(fs, t.files[i].path, t.files[j].path); }
    }
    forall i | 0 <= i < |es| ensures EntryBelow(DiskRoot(fs, t), es[i]) && ParentFirst(DiskRoot(fs, t), es, i) {
      ParentInTree(fs, shares, t, i);
    }
  }

  // The program

  function Expected(files: seq<ShareFile>): map<string, string> {
    if files == [] then map[]
    else Expected(files[..|files| - 1])[files[|files| - 1].path := files[|files| - 1].target]
  }

  lemma {:induction false} ExpectedIsWanted(fs: Bcpfs, files: seq<ShareFile>, rel: string)
    ensures rel in Expected(files) <==> Abs(fs, rel) in Wanted(TreeEntries(fs, files))
    ensures rel in Expected(files) ==> Wanted(TreeEntries(fs, files))[Abs(fs, rel)] == NodeFor(Expected(files)[rel])
  {
    if files != [] {
      var n := |files| - 1;
      ExpectedIsWanted(fs, files[..n], rel);
      var es := TreeEntries(fs, files);
      assert es[..n] == TreeEntries(fs, files[..n]);
      if Abs(fs, rel) == Abs(fs, files[n].path) { AbsInjective(fs, rel, files[n].path); }
    }
  }

  /** What the walk looks at: the root and everything below it. */
  function Visited(nodes: Nodes, root: string): set<string> {
    set p | p in nodes && (p == root || Below(p, root))
  }

  ghost predicate WalkState(
    fs: Bcpfs, root: string, nodes: Nodes, es: seq<Entry>, todo: set<string>, rm: seq<string>, existing: set<string>)
  {
    && todo <= Visited(nodes, root)
    && NoDuplicates(rm)
    && (forall p :: p in rm <==> p in WrongPaths(nodes, root, es) && p !in todo)
    && (forall rel :: rel in existing <==>
          Below(Abs(fs, rel), root) && Right(nodes, es, Abs(fs, rel)) && Abs(fs, rel) !in todo)
  }

  /** The walk: gathers the wrong paths, in whatever order they are visited, and
      the expected files that are right already. */
  method WalkTree(nodes: Nodes, fs: Bcpfs, tree: ShareTree)
    returns (rm: seq<string>, existing: set<string>)
    requires WellFormed(nodes) && fs.Valid()
    ensures NoDuplicates(rm)
    ensures Elements(rm) == WrongPaths(nodes, DiskRoot(fs, tree), TreeEntries(fs, tree.files))
    ensures forall rel :: rel in existing <==>
              Below(Abs(fs, rel), DiskRoot(fs, tree)) && Right(nodes, TreeEntries(fs, tree.files), Abs(fs, rel))
  {
    ghost var es := TreeEntries(fs, tree.files);
    var expected := ExpectedFiles(tree);
    rm, existing := [], {};
    var treeRoot := DiskRoot(fs, tree);
    var rootLen := |fs.rootdir|;
    var todo := Visited(nodes, treeRoot);
    while todo != {}
      invariant WalkState(fs, treeRoot, nodes, es, todo, rm, existing)
      decreases todo
    {
      var path :| path in todo;
      ghost var before := todo;
      todo := todo - {path};
      if path == treeRoot {
        SkipRoot(fs, treeRoot, nodes, es, before, rm, existing);
        continue;
      }
      RelOf(fs, tree, path);
      var relpath := path[rootLen + 1..];
      ExpectedIsWanted(fs, tree.files, relpath);
      if relpath !in expected || nodes[path] != NodeFor(expected[relpath]) {
        VisitWrong(fs, treeRoot, nodes, es, before, rm, existing, path);
        rm := rm + [path];
      } else {
        VisitRight(fs, treeRoot, nodes, es, before, rm, existing, relpath);
        existing := existing + {relpath};
      }
    }
  }

  method ExpectedFiles(tree: ShareTree) returns (expected: map<string, string>)
    ensures expected == Expected(tree.files)
  {
    expected := map[];
    for i := 0 to |tree.files|
      invariant expected == Expected(tree.files[..i])
    {
      assert tree.files[..i + 1][..i] == tree.files[..i];
      expected := expected[tree.files[i].path := tree.files[i].target];
    }
    assert tree.files[..|tree.files|] == tree.files;
  }

  lemma RelOf(fs: Bcpfs, tree: ShareTree, path: string)
    requires Below(path, DiskRoot(fs, tree))
    ensures |path| > |fs.rootdir| + 1 && path == Abs(fs, path[|fs.rootdir| + 1..])
  {
    assert path[..|fs.rootdir| + 1] == DiskRoot(fs, tree)[..|fs.rootdir| + 1] == fs.rootdir + "/";
  }

  lemma SkipRoot(
    fs: Bcpfs, root: string, nodes: Nodes, es: seq<Entry>, todo: set<string>, rm: seq<string>, existing: set<string>)
    requires WalkState(fs, root, nodes, es, todo, rm, existing)
    ensures WalkState(fs, root, nodes, es, todo - {root}, rm, existing)
  {
    BelowIrreflexive(root);
  }

  lemma VisitWrong(
    fs: Bcpfs, root: string, nodes: Nodes, es: seq<Entry>, todo: set<string>, rm: seq<string>, existing: set<string>,
    path: string)
    requires WalkState(fs, root, nodes, es, todo, rm, existing)
    requires path in todo && path in WrongPaths(nodes, root, es)
    ensures WalkState(fs, root, nodes, es, todo - {path}, rm + [path], existing)
  {
    assert path !in rm;
    forall p ensures p in rm + [path] <==> p in WrongPaths(nodes, root, es) && p !in todo - {path} {
      if p == path { assert (rm + [path])[|rm|] == path; }
    }
  }

  lemma VisitRight(
    fs: Bcpfs, root: string, nodes: Nodes, es: seq<Entry>, todo: set<string>, rm: seq<string>, existing: set<string>,
    rel: string)
    requires WalkState(fs, root, nodes, es, todo, rm, existing)
    requires Abs(fs, rel) in todo && Below(Abs(fs, rel), root) && Right(nodes, es, Abs(fs, rel))
    ensures WalkState(fs, root, nodes, es, todo - {Abs(fs, rel)}, rm, existing + {rel})
  {
    forall r | Abs(fs, r) == Abs(fs, rel) ensures r == rel {
      AbsInjective(fs, r, rel);
    }
  }

  /** Executes one more system call of the list `all`. */
  method DoNext(disk: FileSystem, op: Op, ghost n0: Nodes, ghost all: seq<Op>, ghost k: nat) returns (ok: bool)
    requires disk.Valid() && CleanOp(op)
    requires k < |all| && all[k] == op && Run(n0, all[..k]) == Done(disk.nodes)
    modifies disk
    ensures disk.Valid()
    ensures !ok ==> Run(n0, all).Failed?
    ensures ok ==> disk.trace == old(disk.trace) + [op] && Run(n0, all[..k + 1]) == Done(disk.nodes)
  {
    assert all[..k + 1] == all[..k] + [op];
    RunAppend(n0, all[..k], op);
    var r := disk.Do(op);
    if r.Failed? {
      RunFailed(n0, all[..k + 1], all[k + 1..]);
      assert all[..k + 1] + all[k + 1..] == all;
    }
    return r.Done?;
  }

  ghost predicate CleanPaths(paths: seq<string>) {
    forall i :: 0 <= i < |paths| ==> ChildOf(paths[i], Parent(paths[i]))
  }

  lemma NextRemoval(sorted: seq<string>, k: nat)
    requires k < |sorted| && CleanPaths(sorted)
    ensures |RemoveOps(sorted)| == |sorted| && RemoveOps(sorted)[k] == RemoveOp(sorted[|sorted| - 1 - k])
    ensures CleanOp(RemoveOps(sorted)[k])
  {
  }

  /** Removes unexpected files, the last one in sorted order first. */
  method RemoveUnexpected(disk: FileSystem, sorted: seq<string>) returns (ok: bool)
    requires disk.Valid() && CleanPaths(sorted)
    modifies disk
    ensures disk.Valid()
    ensures ok <==> Run(old(disk.nodes), RemoveOps(sorted)).Done?
    ensures ok ==> disk.trace == old(disk.trace) + RemoveOps(sorted)
    ensures ok ==> Run(old(disk.nodes), RemoveOps(sorted)) == Done(disk.nodes)
  {
    hide Run, Step, RemoveOps, CleanPaths;
    ghost var n0, t0, removes := disk.nodes, disk.trace, RemoveOps(sorted);
    TakeEnds(t0, removes);
    RunNothing(n0);
    RemoveOpsLength(sorted);
    for k := 0 to |sorted|
      invariant disk.Valid() && disk.trace == t0 + removes[..k] && Run(n0, removes[..k]) == Done(disk.nodes)
    {
      var path := sorted[|sorted| - 1 - k];
      NextRemoval(sorted, k);
      ok := DoNext(disk, RemoveOp(path), n0, removes, k);
      if !ok { return; }
      TakeOneMore(t0, removes, k);
    }
    return true;
  }

  function CreateFileOp(fs: Bcpfs, f: ShareFile): Op {
    if f.IsDir() then MkdirOp(Abs(fs, f.path)) else SymlinkOp(f.target, Abs(fs, f.path))
  }

  /** What is created for the files that do not exist yet. */
  function MissingOps(fs: Bcpfs, files: seq<ShareFile>, existing: set<string>): seq<Op> {
    if files == [] then []
    else
      var n := |files| - 1;
      MissingOps(fs, files[..n], existing) + if files[n].path in existing then [] else [CreateFileOp(fs, files[n])]
  }

  lemma {:induction false} MissingOpsPrefix(fs: Bcpfs, files: seq<ShareFile>, existing: set<string>, i: nat)
    requires i <= |files|
    ensures MissingOps(fs, files[..i], existing) <= MissingOps(fs, files, existing)
    ensures i < |files| ==>
              MissingOps(fs, files[..i + 1], existing) ==
              if files[i].path in existing then MissingOps(fs, files[..i], existing)
              else MissingOps(fs, files[..i], existing) + [CreateFileOp(fs, files[i])]
    decreases |files|
  {
    if i == |files| {
      assert files[..i] == files;
    } else {
      var n := |files| - 1;
      assert files[..i + 1][..i] == files[..i];
      MissingOpsPrefix(fs, files[..n], existing, i);
      assert files[..n][..i] == files[..i];
    }
  }

  /** Creates missing files in sorted order. */
  method CreateMissing(disk: FileSystem, fs: Bcpfs, files: seq<ShareFile>, existing: set<string>) returns (ok: bool)
    requires disk.Valid()
    requires forall i :: 0 <= i < |files| ==> ChildOf(Abs(fs, files[i].path), Parent(Abs(fs, files[i].path)))
    modifies disk
    ensures disk.Valid()
    ensures ok <==> Run(old(disk.nodes), MissingOps(fs, files, existing)).Done?
    ensures ok ==> disk.trace == old(disk.trace) + MissingOps(fs, files, existing)
    ensures ok ==> Run(old(disk.nodes), MissingOps(fs, files, existing)) == Done(disk.nodes)
  {
    ghost var n0, t0 := disk.nodes, disk.trace;
    hide Run, MissingOps, Parent, ChildOf, Abs, WellFormed;
    assert t0 + [] == t0;
    RunNothing(n0);
    NothingMissingYet(fs, files, existing);
    for i := 0 to |files|
      invariant disk.Valid() && disk.trace == t0 + MissingOps(fs, files[..i], existing)
      invariant Run(n0, MissingOps(fs, files[..i], existing)) == Done(disk.nodes)
    {
      MissingOpsPrefix(fs, files, existing, i);
      if files[i].path in existing { continue; }
      ok := CreateOne(disk, fs, files, existing, i, n0, t0);
      if !ok { return; }
    }
    assert files[..|files|] == files;
    return true;
  }

  method CreateOne(
    disk: FileSystem, fs: Bcpfs, files: seq<ShareFile>, existing: set<string>, i: nat, ghost n0: Nodes, ghost t0: seq<Op>)
    returns (ok: bool)
    requires disk.Valid() && i < |files| && files[i].path !in existing
    requires ChildOf(Abs(fs, files[i].path), Parent(Abs(fs, files[i].path)))
    requires disk.trace == t0 + MissingOps(fs, files[..i], existing)
    requires Run(n0, MissingOps(fs, files[..i], existing)) == Done(disk.nodes)
    modifies disk
    ensures disk.Valid()
    ensures !ok ==> Run(n0, MissingOps(fs, files, existing)).Failed?
    ensures ok ==> disk.trace == t0 + MissingOps(fs, files[..i + 1], existing)
    ensures ok ==> Run(n0, MissingOps(fs, files[..i + 1], existing)) == Done(disk.nodes)
  {
    hide Run, MissingOps, WellFormed;
    ghost var all, done := MissingOps(fs, files, existing), MissingOps(fs, files[..i], existing);
    var op := CreateFileOp(fs, files[i]);
    NextCreation(fs, files, existing, i);
    ok := DoNext(disk, op, n0, all, |done|);
    if !ok { return; }
    AppendAssociates(t0, done, [op]);
  }

  lemma AppendAssociates(a: seq<Op>, b: seq<Op>, c: seq<Op>)
    ensures a + b + c == a + (b + c)
  {
  }

  lemma NothingMissingYet(fs: Bcpfs, files: seq<ShareFile>, existing: set<string>)
    ensures MissingOps(fs, files[..0], existing) == []
  {
  }

  lemma NextCreation(fs: Bcpfs, files: seq<ShareFile>, existing: set<string>, i: nat)
    requires i < |files| && files[i].path !in existing
    ensures
      var all, done, op := MissingOps(fs, files, existing), MissingOps(fs, files[..i], existing), CreateFileOp(fs, files[i]);
      && |done| < |all| && all[|done|] == op && all[..|done|] == done
      && all[..|done| + 1] == done + [op] == MissingOps(fs, files[..i + 1], existing)
  {
    MissingOpsPrefix(fs, files, existing, i);
    MissingOpsPrefix(fs, files, existing, i + 1);
  }

  /** What the walk found makes the two lists the plan. */
  lemma {:induction false} MissingAreCreates(
    fs: Bcpfs, root: string, nodes: Nodes, all: seq<Entry>, files: seq<ShareFile>, existing: set<string>)
    requires forall i :: 0 <= i < |files| ==> Below(Abs(fs, files[i].path), root)
    requires forall rel :: rel in existing <==> Below(Abs(fs, rel), root) && Right(nodes, all, Abs(fs, rel))
    ensures MissingOps(fs, files, existing) == CreateOps(nodes, all, TreeEntries(fs, files))
  {
    if files != [] {
      var n := |files| - 1;
      MissingAreCreates(fs, root, nodes, all, files[..n], existing);
      assert TreeEntries(fs, files)[..n] == TreeEntries(fs, files[..n]);
    }
  }

  lemma SortedWrongPaths(nodes: Nodes, root: string, es: seq<Entry>, rm: seq<string>)
    requires WellFormed(nodes) && NoDuplicates(rm) && Elements(rm) == WrongPaths(nodes, root, es)
    ensures Sort(rm) == SortedSet(WrongPaths(nodes, root, es)) && CleanPaths(Sort(rm))
  {
    AscendingUnique(Sort(rm), SortedSet(WrongPaths(nodes, root, es)));
    forall i | 0 <= i < |Sort(rm)| ensures ChildOf(Sort(rm)[i], Parent(Sort(rm)[i])) {
      assert Sort(rm)[i] in Elements(Sort(rm));
    }
  }

  lemma EntriesClean(fs: Bcpfs, tree: ShareTree)
    requires Layout(DiskRoot(fs, tree), TreeEntries(fs, tree.files))
    ensures forall i :: 0 <= i < |tree.files| ==>
              && ChildOf(Abs(fs, tree.files[i].path), Parent(Abs(fs, tree.files[i].path)))
              && Below(Abs(fs, tree.files[i].path), DiskRoot(fs, tree))
  {
    forall i | 0 <= i < |tree.files| ensures EntryBelow(DiskRoot(fs, tree), FileEntry(fs, tree.files[i])) {
      assert TreeEntries(fs, tree.files)[i] == FileEntry(fs, tree.files[i]);
    }
  }

  method EnsureShareTree(disk: FileSystem, fs: Bcpfs, tree: ShareTree) returns (ok: bool)
    requires disk.Valid() && fs.Valid()
    requires Layout(DiskRoot(fs, tree), TreeEntries(fs, tree.files))
    modifies disk
    ensures disk.Valid()
    ensures DiskRoot(fs, tree) !in old(disk.nodes) ==>
              !ok && disk.nodes == old(disk.nodes) && disk.trace == old(disk.trace)
    ensures IsDir(old(disk.nodes), DiskRoot(fs, tree)) ==>
              && ok
              && disk.nodes == Target(old(disk.nodes), DiskRoot(fs, tree), TreeEntries(fs, tree.files))
              && disk.trace == old(disk.trace) + Plan(old(disk.nodes), DiskRoot(fs, tree), TreeEntries(fs, tree.files))
  {
    var treeRoot := DiskRoot(fs, tree);
    ghost var es, n0, t0 := TreeEntries(fs, tree.files), disk.nodes, disk.trace;
    if treeRoot !in disk.nodes {
      return false;
    }
    var rm, existing := WalkTree(disk.nodes, fs, tree);
    EntriesClean(fs, tree);
    SortedWrongPaths(n0, treeRoot, es, rm);
    MissingAreCreates(fs, treeRoot, n0, es, tree.files, existing);
    ghost var removes, creates := RemoveOps(Sort(rm)), CreateOps(n0, es, es);
    if IsDir(n0, treeRoot) {
      PlanSucceeds(n0, treeRoot, es);
      RemovalsDone(n0, treeRoot, es);
      RunConcat(n0, removes, AllRight(n0, treeRoot, es), creates);
    }
    ok := RemoveUnexpected(disk, Sort(rm));
    if !ok { return; }
    ok := CreateMissing(disk, fs, tree.files, existing);
    AppendAssociates(t0, removes, creates);
  }

  // All trees

  ghost predicate TreesFit(fs: Bcpfs, trees: seq<ShareTree>) {
    && fs.Valid()
    && (forall i :: 0 <= i < |trees| ==> CleanName(trees[i].orgUnit))
    && (forall i, j :: 0 <= i < j < |trees| ==> trees[i].orgUnit != trees[j].orgUnit)
    && (forall i :: 0 <= i < |trees| ==> Layout(DiskRoot(fs, trees[i]), TreeEntries(fs, trees[i].files)))
  }

  /** The disk after the trees were brought in place one after the other. */
  function AllTargets(nodes: Nodes, fs: Bcpfs, trees: seq<ShareTree>): Nodes {
    if trees == [] then nodes
    else
      var n := |trees| - 1;
      Target(AllTargets(nodes, fs, trees[..n]), DiskRoot(fs, trees[n]), TreeEntries(fs, trees[n].files))
  }

  lemma DiskRootsApart(fs: Bcpfs, t: ShareTree, u: ShareTree)
    requires fs.Valid() && CleanName(t.orgUnit) && CleanName(u.orgUnit) && t.orgUnit != u.orgUnit
    ensures DiskRoot(fs, t) != DiskRoot(fs, u) && !Below(DiskRoot(fs, t), DiskRoot(fs, u))
  {
    TreeRootParts(fs, t.orgUnit);
    TreeRootParts(fs, u.orgUnit);
    SplitJoin2(fs.rootdir, TreeRoot(fs, t.orgUnit), '/');
    SplitJoin2(fs.rootdir, TreeRoot(fs, u.orgUnit), '/');
    var a, b := Parts(DiskRoot(fs, t)), Parts(DiskRoot(fs, u));
    var n := |Parts(fs.rootdir)| + 1;
    assert |a| == |b| && a[n] == t.orgUnit && b[n] == u.orgUnit;
    BelowIffParts(DiskRoot(fs, t), DiskRoot(fs, u));
  }

  /** A path below one tree is not touched by another tree. */
  lemma TreesIndependent(fs: Bcpfs, t: ShareTree, u: ShareTree, p: string)
    requires fs.Valid() && CleanName(t.orgUnit) && CleanName(u.orgUnit) && t.orgUnit != u.orgUnit
    requires p == DiskRoot(fs, t) || Below(p, DiskRoot(fs, t))
    ensures !Below(p, DiskRoot(fs, u))
  {
    DiskRootsApart(fs, t, u);
    DiskRootsApart(fs, u, t);
    if Below(p, DiskRoot(fs, u)) && Below(p, DiskRoot(fs, t)) {
      AncestorsComparable(DiskRoot(fs, t), DiskRoot(fs, u), p);
    }
  }

  lemma TargetOutside(nodes: Nodes, root: string, es: seq<Entry>, p: string)
    requires Layout(root, es) && !Below(p, root)
    ensures p in Target(nodes, root, es) <==> p in nodes
    ensures p in nodes ==> Target(nodes, root, es)[p] == nodes[p]
  {
    InWanted(root, es, p);
  }

  lemma TargetEntry(nodes: Nodes, root: string, es: seq<Entry>, i: nat)
    requires Layout(root, es) && i < |es|
    ensures es[i].path in Target(nodes, root, es) && Target(nodes, root, es)[es[i].path] == es[i].node
  {
    InWanted(root, es, es[i].path);
  }

  lemma LastTreeFits(fs: Bcpfs, trees: seq<ShareTree>)
    requires TreesFit(fs, trees) && trees != []
    ensures TreesFit(fs, trees[..|trees| - 1])
    ensures Layout(DiskRoot(fs, trees[|trees| - 1]), TreeEntries(fs, trees[|trees| - 1].files))
  {
  }

  lemma {:induction false} AllTargetsOutside(nodes: Nodes, fs: Bcpfs, trees: seq<ShareTree>, p: string)
    requires TreesFit(fs, trees) && forall i :: 0 <= i < |trees| ==> !Below(p, DiskRoot(fs, trees[i]))
    ensures p in AllTargets(nodes, fs, trees) <==> p in nodes
    ensures p in nodes ==> AllTargets(nodes, fs, trees)[p] == nodes[p]
  {
    if trees != [] {
      var n := |trees| - 1;
      hide Target, Layout, TreesFit;
      LastTreeFits(fs, trees);
      AllTargetsOutside(nodes, fs, trees[..n], p);
      TargetOutside(
        AllTargets(nodes, fs, trees[..n]), DiskRoot(fs, trees[n]), TreeEntries(fs, trees[n].files), p);
    }
  }

  /** All trees are in place, also those that were applied first. */
  lemma {:induction false} AllTreesInPlace(nodes: Nodes, fs: Bcpfs, trees: seq<ShareTree>, k: nat, i: nat)
    requires TreesFit(fs, trees) && k < |trees| && i < |trees[k].files|
    ensures var f, disk := trees[k].files[i], AllTargets(nodes, fs, trees);
            Abs(fs, f.path) in disk && disk[Abs(fs, f.path)] == NodeFor(f.target)
  {
    hide Target, Layout;
    var n := |trees| - 1;
    var before, last := AllTargets(nodes, fs, trees[..n]), trees[n];
    var f := trees[k].files[i];
    if k == n {
      TargetEntry(before, DiskRoot(fs, last), TreeEntries(fs, last.files), i);
    } else {
      AllTreesInPlace(nodes, fs, trees[..n], k, i);
      FileBelowRoot(fs, trees[k], i);
      TreesIndependent(fs, trees[k], last, Abs(fs, f.path));
      TargetOutside(before, DiskRoot(fs, last), TreeEntries(fs, last.files), Abs(fs, f.path));
    }
  }

  lemma FileBelowRoot(fs: Bcpfs, t: ShareTree, i: nat)
    requires Layout(DiskRoot(fs, t), TreeEntries(fs, t.files)) && i < |t.files|
    ensures Below(Abs(fs, t.files[i].path), DiskRoot(fs, t))
  {
    assert EntryBelow(DiskRoot(fs, t), TreeEntries(fs, t.files)[i]);
  }

  lemma RootKept(nodes: Nodes, fs: Bcpfs, trees: seq<ShareTree>, i: nat)
    requires TreesFit(fs, trees) && i < |trees| && IsDir(nodes, DiskRoot(fs, trees[i]))
    ensures IsDir(AllTargets(nodes, fs, trees[..i]), DiskRoot(fs, trees[i]))
  {
    forall k | 0 <= k < i ensures !Below(DiskRoot(fs, trees[i]), DiskRoot(fs, trees[k])) {
      DiskRootsApart(fs, trees[i], trees[k]);
    }
    AllTargetsOutside(nodes, fs, trees[..i], DiskRoot(fs, trees[i]));
  }

  method EnsureShareTrees(disk: FileSystem, fs: Bcpfs, trees: seq<ShareTree>) returns (ok: bool)
    requires disk.Valid() && TreesFit(fs, trees)
    modifies disk
    ensures disk.Valid()
    ensures (forall i :: 0 <= i < |trees| ==> IsDir(old(disk.nodes), DiskRoot(fs, trees[i]))) ==>
              ok && disk.nodes == AllTargets(old(disk.nodes), fs, trees)
  {
    hide Target, Plan, Layout, AllTargets, WellFormed, DiskRoot, TreeEntries;
    ghost var n0 := disk.nodes;
    ghost var roots := forall i :: 0 <= i < |trees| ==> IsDir(n0, DiskRoot(fs, trees[i]));
    AllTargetsStart(n0, fs, trees);
    for i := 0 to |trees|
      invariant disk.Valid()
      invariant roots ==> disk.nodes == AllTargets(n0, fs, trees[..i])
    {
      if roots { RootKept(n0, fs, trees, i); }
      AllTargetsStep(n0, fs, trees, i);
      ok := EnsureShareTree(disk, fs, trees[i]);
      if !ok { return; }
    }
    return true;
  }

  lemma AllTargetsStart(nodes: Nodes, fs: Bcpfs, trees: seq<ShareTree>)
    ensures AllTargets(nodes, fs, trees[..0]) == nodes && trees[..|trees|] == trees
  {
  }

  lemma AllTargetsStep(nodes: Nodes, fs: Bcpfs, trees: seq<ShareTree>, i: nat)
    requires i < |trees|
    ensures AllTargets(nodes, fs, trees[..i + 1]) ==
            Target(AllTargets(nodes, fs, trees[..i]), DiskRoot(fs, trees[i]), TreeEntries(fs, trees[i].files))
  {
    assert trees[..i + 1][..i] == trees[..i];
  }

  /** Compiled trees fit. */
  lemma CompiledTreesFit(fs: Bcpfs, shares: Exports, trees: seq<ShareTree>)
    requires fs.Valid() && ShareNamesClean(shares) && IsShareTrees(fs, shares, trees)
    ensures TreesFit(fs, trees)
  {
    hide Layout;
    AscendingNoDuplicates(OrgUnits(trees));
    forall i, j | 0 <= i < j < |trees| ensures trees[i].orgUnit != trees[j].orgUnit {
      assert OrgUnits(trees)[i] != OrgUnits(trees)[j];
    }
    forall i | 0 <= i < |trees|
      ensures CleanName(trees[i].orgUnit) && Layout(DiskRoot(fs, trees[i]), TreeEntries(fs, trees[i].files))
    {
      assert trees[i] in trees && OrgUnits(trees)[i] in OrgUnits(trees);
      var p :| SharedWith(shares, trees[i].orgUnit, p);
      TreeIsLayout(fs, shares, trees[i]);
    }
  }
}
