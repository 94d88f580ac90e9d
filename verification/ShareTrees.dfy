/** compileShareTrees: the `<orgdir>/<ou>/shared` trees of directories and
    relative symlinks. */
module ShareTrees {
  import opened Strings
  import opened Paths
  import opened Sharing
  import opened Nesting

  /** A file of a shared tree: a directory if the target is empty, else a link. */
  datatype ShareFile = ShareFile(path: string, target: string) {
    predicate IsDir() { target == "" }
  }

  datatype ShareTree = ShareTree(orgUnit: string, files: seq<ShareFile>)

  function FilePaths(files: seq<ShareFile>): (r: seq<string>)
    ensures |r| == |files|
    ensures forall i :: 0 <= i < |files| ==> r[i] == files[i].path
  {
    if files == [] then [] else [files[0].path] + FilePaths(files[1..])
  }

  function OrgUnits(trees: seq<ShareTree>): (r: seq<string>)
    ensures |r| == |trees|
    ensures forall i :: 0 <= i < |trees| ==> r[i] == trees[i].orgUnit
  {
    if trees == [] then [] else [trees[0].orgUnit] + OrgUnits(trees[1..])
  }

  /** The root of a shared tree, relative to the root dir. */
  function TreeRoot(fs: Bcpfs, ou: string): string {
    fs.orgUnitDir + "/" + ou + "/shared"
  }

  function SharedPath(fs: Bcpfs, ou: string, q: string): string {
    TreeRoot(fs, ou) + "/" + q
  }

  function LinkTarget(p: string): string {
    Join(Ups(|Parts(p)| + 1) + Parts(p))
  }

  lemma LinkTargetParts(p: string)
    requires RelPath(p)
    ensures Parts(LinkTarget(p)) == Ups(|Parts(p)| + 1) + Parts(p)
    ensures LinkTarget(p) != ""
  {
    var elems := Ups(|Parts(p)| + 1) + Parts(p);
    SplitConcat(elems, '/');
    JoinNormal(elems, |Parts(p)| + 1, Parts(p));
    assert Split("", '/') == [""];
  }

  lemma ConcatThree(a: string, b: string, c: string)
    ensures Concat([a, b, c], '/') == a + "/" + b + "/" + c
  {
    assert [a, b, c][1..] == [b, c] && [b, c][1..] == [c];
    assert Concat([b, c], '/') == b + "/" + c;
    assert a + "/" + (b + "/" + c) == a + "/" + b + "/" + c;
  }

  lemma CleanNamesAppend(a: seq<string>, b: seq<string>)
    requires CleanNames(a) && CleanNames(b)
    ensures CleanNames(a + b)
  {
  }

  lemma TreeRootParts(fs: Bcpfs, ou: string)
    requires fs.Valid() && CleanName(ou)
    ensures CleanNames([fs.orgUnitDir, ou, "shared"])
    ensures TreeRoot(fs, ou) == Concat([fs.orgUnitDir, ou, "shared"], '/')
    ensures Parts(TreeRoot(fs, ou)) == [fs.orgUnitDir, ou, "shared"]
  {
    ConcatThree(fs.orgUnitDir, ou, "shared");
    SplitConcat([fs.orgUnitDir, ou, "shared"], '/');
  }

  lemma SharedPathParts(fs: Bcpfs, ou: string, q: string)
    requires fs.Valid() && CleanName(ou) && RelPath(q)
    ensures Parts(SharedPath(fs, ou, q)) == [fs.orgUnitDir, ou, "shared"] + Parts(q)
    ensures RelPath(SharedPath(fs, ou, q))
  {
    TreeRootParts(fs, ou);
    SplitJoin2(TreeRoot(fs, ou), q, '/');
    CleanNamesAppend([fs.orgUnitDir, ou, "shared"], Parts(q));
  }

  lemma JoinShared(fs: Bcpfs, ou: string, parts: seq<string>)
    requires fs.Valid() && CleanName(ou) && |parts| > 0 && CleanNames(parts)
    ensures Join([fs.orgUnitDir, ou, "shared"] + parts) == SharedPath(fs, ou, Concat(parts, '/'))
  {
    SplitConcat(parts, '/');
    SharedPathParts(fs, ou, Concat(parts, '/'));
    var all := [fs.orgUnitDir, ou, "shared"] + parts;
    JoinNames(all);
    SplitInjective(Join(all), SharedPath(fs, ou, Concat(parts, '/')), '/');
  }

  /** What sharing `p` with `ou` puts into the tree of `ou`. */
  ghost predicate FileOfShare(fs: Bcpfs, ou: string, p: string, f: ShareFile) {
    || f == ShareFile(SharedPath(fs, ou, p), LinkTarget(p))
    || exists q :: Below(p, q) && f == ShareFile(SharedPath(fs, ou, q), "")
  }

  /** `p` is shared by the org unit itself or with it. */
  ghost predicate SharedWith(shares: Exports, ou: string, p: string) {
    exists s :: s in shares && s.path == p && (FirstPart(p) == ou || ou in Grantees(s.acl))
  }

  ghost predicate IsShareTree(fs: Bcpfs, shares: Exports, t: ShareTree) {
    && Ascending(FilePaths(t.files))
    && forall f :: f in t.files <==> exists p :: SharedWith(shares, t.orgUnit, p) && FileOfShare(fs, t.orgUnit, p, f)
  }

  /** An org unit has a tree if and only if it owns or is granted a share, and
      each tree holds exactly the files of these shares. */
  ghost predicate IsShareTrees(fs: Bcpfs, shares: Exports, trees: seq<ShareTree>) {
    && Ascending(OrgUnits(trees))
    && (forall ou :: ou in OrgUnits(trees) <==> exists p :: SharedWith(shares, ou, p))
    && AllShareTrees(fs, shares, trees)
  }

  ghost predicate AllShareTrees(fs: Bcpfs, shares: Exports, trees: seq<ShareTree>) {
    forall t :: t in trees ==> IsShareTree(fs, shares, t)
  }

  // Building the map `ou => path => target`

  type TreeMap = map<string, string>

  /** The directories for the ancestors of `p` with less than `i` components. */
  function DirEntries(fs: Bcpfs, ou: string, p: string, i: nat): TreeMap
    requires i <= |Parts(p)|
  {
    if i <= 1 then map[] else DirEntries(fs, ou, p, i - 1)[SharedPath(fs, ou, Ancestor(p, i - 1)) := ""]
  }

  function ShareEntries(fs: Bcpfs, ou: string, p: string): TreeMap {
    DirEntries(fs, ou, p, |Parts(p)|)[SharedPath(fs, ou, p) := LinkTarget(p)]
  }

  function GetTree(trees: map<string, TreeMap>, ou: string): TreeMap {
    if ou in trees then trees[ou] else map[]
  }

  /** One call of addShare: an org unit and a logical path. */
  datatype Job = Job(ou: string, path: string)

  function OwnJobs(shares: Exports): seq<Job> {
    if shares == [] then []
    else
      var n := |shares| - 1;
      OwnJobs(shares[..n]) + [Job(FirstPart(shares[n].path), shares[n].path)]
  }

  function AclJobs(acl: Acl, path: string): seq<Job> {
    if acl == [] then []
    else
      var n := |acl| - 1;
      AclJobs(acl[..n], path) + [Job(acl[n].group, path)]
  }

  function OtherJobs(shares: Exports): seq<Job> {
    if shares == [] then []
    else
      var n := |shares| - 1;
      OtherJobs(shares[..n]) + AclJobs(shares[n].acl, shares[n].path)
  }

  function Build(fs: Bcpfs, jobs: seq<Job>): map<string, TreeMap> {
    if jobs == [] then map[]
    else
      var n := |jobs| - 1;
      After(fs, Build(fs, jobs[..n]), jobs[n])
  }

  /** The map after one more call of addShare. */
  function After(fs: Bcpfs, trees: map<string, TreeMap>, job: Job): map<string, TreeMap> {
    trees[job.ou := GetTree(trees, job.ou) + ShareEntries(fs, job.ou, job.path)]
  }

  lemma BuildStep(fs: Bcpfs, jobs: seq<Job>, job: Job)
    ensures Build(fs, jobs + [job]) == After(fs, Build(fs, jobs), job)
  {
    assert (jobs + [job])[..|jobs|] == jobs;
  }

  lemma OwnStep(fs: Bcpfs, shares: Exports, i: nat)
    requires i < |shares|
    ensures Build(fs, OwnJobs(shares[..i + 1])) ==
            After(fs, Build(fs, OwnJobs(shares[..i])), Job(FirstPart(shares[i].path), shares[i].path))
  {
    assert shares[..i + 1][..i] == shares[..i];
    BuildStep(fs, OwnJobs(shares[..i]), Job(FirstPart(shares[i].path), shares[i].path));
  }

  /** All own jobs, the grants of the first `i` shares, and the first `j` grants
      of the next one. */
  function Partial(shares: Exports, i: nat, j: nat): seq<Job>
    requires i <= |shares| && (j > 0 ==> i < |shares| && j <= |shares[i].acl|)
  {
    var done := OwnJobs(shares) + OtherJobs(shares[..i]);
    if j == 0 then done else done + AclJobs(shares[i].acl[..j], shares[i].path)
  }

  lemma PartialStep(fs: Bcpfs, shares: Exports, i: nat, j: nat)
    requires i < |shares| && j < |shares[i].acl|
    ensures Build(fs, Partial(shares, i, j + 1)) ==
            After(fs, Build(fs, Partial(shares, i, j)), Job(shares[i].acl[j].group, shares[i].path))
  {
    var acl, job := shares[i].acl, Job(shares[i].acl[j].group, shares[i].path);
    assert acl[..j + 1][..j] == acl[..j];
    var done, grants := OwnJobs(shares) + OtherJobs(shares[..i]), AclJobs(acl[..j], shares[i].path);
    assert done + (grants + [job]) == done + grants + [job];
    assert j == 0 ==> done + grants == done;
    BuildStep(fs, Partial(shares, i, j), job);
  }

  lemma PartialNext(shares: Exports, i: nat)
    requires i < |shares|
    ensures Partial(shares, i, |shares[i].acl|) == Partial(shares, i + 1, 0)
  {
    assert shares[..i + 1][..i] == shares[..i];
    assert shares[i].acl[..|shares[i].acl|] == shares[i].acl;
  }

  lemma NoJobs(fs: Bcpfs, shares: Exports)
    ensures Build(fs, OwnJobs(shares[..0])) == map[]
  {
  }

  lemma PartialEnds(shares: Exports)
    ensures Partial(shares, 0, 0) == OwnJobs(shares)
    ensures Partial(shares, |shares|, 0) == OwnJobs(shares) + OtherJobs(shares)
    ensures shares[..|shares|] == shares
  {
    assert shares[..|shares|] == shares;
    assert OwnJobs(shares) + [] == OwnJobs(shares);
  }

  lemma MapAddUpdate(m: TreeMap, n: TreeMap, k: string, v: string)
    ensures (m + n)[k := v] == m + n[k := v]
    ensures n == map[] ==> m + n == m
  {
  }

  lemma ShareEntriesDef(fs: Bcpfs, ou: string, p: string)
    ensures ShareEntries(fs, ou, p) == DirEntries(fs, ou, p, |Parts(p)|)[SharedPath(fs, ou, p) := LinkTarget(p)]
  {
  }

  class TreeBuilder {
    const fs: Bcpfs
    var trees: map<string, TreeMap>

    constructor (fs: Bcpfs)
      ensures this.fs == fs && trees == map[]
    {
      this.fs := fs;
      trees := map[];
    }

    method AddDir(ou: string, parts: seq<string>)
      requires fs.Valid() && CleanName(ou) && |parts| > 0 && CleanNames(parts)
      modifies this`trees
      ensures trees == old(trees)[ou := GetTree(old(trees), ou)[SharedPath(fs, ou, Concat(parts, '/')) := ""]]
    {
      JoinShared(fs, ou, parts);
      trees := trees[ou := GetTree(trees, ou)[Join([fs.orgUnitDir, ou, "shared"] + parts) := ""]];
    }

    method AddLink(ou: string, p: string, parts: seq<string>)
      requires fs.Valid() && CleanName(ou) && RelPath(p) && parts == Parts(p)
      modifies this`trees
      ensures trees == old(trees)[ou := GetTree(old(trees), ou)[SharedPath(fs, ou, p) := LinkTarget(p)]]
    {
      hide Join, Concat, CleanName, SharedPath;
      var upLevels := |parts| + 1;
      var targetParts := [];
      for i := 0 to upLevels
        invariant targetParts == Ups(i)
      {
        targetParts := targetParts + [".."];
      }
      targetParts := targetParts + parts;
      var target := Join(targetParts);
      JoinShared(fs, ou, parts);
      ConcatSplit(p, '/');
      trees := trees[ou := GetTree(trees, ou)[Join([fs.orgUnitDir, ou, "shared"] + parts) := target]];
    }

    method AddShare(ou: string, path: string)
      requires fs.Valid() && CleanName(ou) && RelPath(path)
      modifies this`trees
      ensures trees == After(fs, old(trees), Job(ou, path))
    {
      hide ShareEntries, Split, SharedPath;
      var parts := Parts(path);
      assert ShareEntries(fs, ou, path) ==
             DirEntries(fs, ou, path, |Parts(path)|)[SharedPath(fs, ou, path) := LinkTarget(path)] by {
        ShareEntriesDef(fs, ou, path);
      }
      for i := 1 to |parts|
        invariant i == 1 ==> trees == old(trees)
        invariant i > 1 ==> trees == old(trees)[ou := GetTree(old(trees), ou) + DirEntries(fs, ou, path, i)]
      {
        MapAddUpdate(GetTree(old(trees), ou), DirEntries(fs, ou, path, i), SharedPath(fs, ou, Ancestor(path, i)), "");
        AddDir(ou, parts[..i]);
      }
      MapAddUpdate(
        GetTree(old(trees), ou), DirEntries(fs, ou, path, |parts|), SharedPath(fs, ou, path), LinkTarget(path));
      AddLink(ou, path, parts);
    }
  }

  // From the map to the sorted lists

  /** Collects the files of one tree, in whatever order the map is traversed, and
      sorts them by path. */
  method SortedFiles(tr: TreeMap) returns (files: seq<ShareFile>)
    ensures Ascending(FilePaths(files))
    ensures forall f :: f in files <==> f.path in tr && tr[f.path] == f.target
  {
    hide FilePaths, Ascending;
    var paths := SortedKeys(tr.Keys);
    files := [];
    NoFiles();
    for i := 0 to |paths|
      invariant FilePaths(files) == paths[..i]
      invariant forall f :: f in files <==> f.path in paths[..i] && f.path in tr && tr[f.path] == f.target
    {
      assert paths[i] in Elements(paths);
      var f := ShareFile(paths[i], tr[paths[i]]);
      FilesStep(tr, files, paths, i, f);
      files := files + [f];
    }
    TakeEnds([], paths);
    assert forall p :: p in paths <==> p in Elements(paths);
  }

  lemma NoFiles()
    ensures FilePaths([]) == []
  {
  }

  lemma FilesStep(tr: TreeMap, files: seq<ShareFile>, paths: seq<string>, i: nat, f: ShareFile)
    requires i < |paths| && f.path == paths[i] && f.path in tr && tr[f.path] == f.target
    requires FilePaths(files) == paths[..i]
    requires forall g :: g in files <==> g.path in paths[..i] && g.path in tr && tr[g.path] == g.target
    ensures FilePaths(files + [f]) == paths[..i + 1]
    ensures forall g :: g in files + [f] <==> g.path in paths[..i + 1] && g.path in tr && tr[g.path] == g.target
  {
    FilePathsAppend(files, f);
    assert paths[..i + 1] == paths[..i] + [paths[i]];
  }

  lemma FilePathsAppend(files: seq<ShareFile>, f: ShareFile)
    ensures FilePaths(files + [f]) == FilePaths(files) + [f.path]
  {
  }

  method SortedKeys(keys: set<string>) returns (sorted: seq<string>)
    ensures Ascending(sorted) && Elements(sorted) == keys
  {
    var todo := keys;
    var list: seq<string> := [];
    while todo != {}
      invariant NoDuplicates(list) && Elements(list) + todo == keys && Elements(list) !! todo
      decreases todo
    {
      var k :| k in todo;
      assert k !in Elements(list);
      ElementsAppend(list, k);
      list := list + [k];
      todo := todo - {k};
    }
    sorted := Sort(list);
  }

  lemma ElementsAppend(s: seq<string>, x: string)
    ensures Elements(s + [x]) == Elements(s) + {x}
  {
    forall y | y in Elements(s) + {x} ensures y in s + [x] {
      if y == x { assert (s + [x])[|s|] == x; } else { assert y in s; }
    }
  }

  // What the map holds

  lemma SharedPathInjective(fs: Bcpfs, ou: string, p: string, q: string)
    requires SharedPath(fs, ou, p) == SharedPath(fs, ou, q)
    ensures p == q
  {
    var n := |TreeRoot(fs, ou)| + 1;
    assert p == SharedPath(fs, ou, p)[n..] == SharedPath(fs, ou, q)[n..] == q;
  }

  lemma {:induction false} InDirEntries(fs: Bcpfs, ou: string, p: string, i: nat, f: string)
    requires i <= |Parts(p)|
    ensures f in DirEntries(fs, ou, p, i) <==> exists j :: 0 < j < i && f == SharedPath(fs, ou, Ancestor(p, j))
    ensures f in DirEntries(fs, ou, p, i) ==> DirEntries(fs, ou, p, i)[f] == ""
  {
    if i > 1 { InDirEntries(fs, ou, p, i - 1, f); }
  }

  lemma InShareEntries(fs: Bcpfs, ou: string, p: string, f: ShareFile)
    ensures f.path in ShareEntries(fs, ou, p) && ShareEntries(fs, ou, p)[f.path] == f.target <==>
            FileOfShare(fs, ou, p, f)
  {
    InDirEntries(fs, ou, p, |Parts(p)|, f.path);
    BelowIrreflexive(p);
    forall q | f == ShareFile(SharedPath(fs, ou, q), "") || f.path == SharedPath(fs, ou, q)
      ensures Below(p, q) <==> f.path in DirEntries(fs, ou, p, |Parts(p)|)
    {
      BelowIffAncestor(p, q);
      forall j | 0 < j < |Parts(p)| && f.path == SharedPath(fs, ou, Ancestor(p, j)) ensures q == Ancestor(p, j) {
        SharedPathInjective(fs, ou, q, Ancestor(p, j));
      }
    }
    if FileOfShare(fs, ou, p, f) && f.path == SharedPath(fs, ou, p) && f.target == "" {
      forall q | Below(p, q) && f == ShareFile(SharedPath(fs, ou, q), "") ensures false {
        SharedPathInjective(fs, ou, p, q);
      }
    }
  }

  ghost predicate JobFile(fs: Bcpfs, jobs: seq<Job>, ou: string, f: ShareFile) {
    exists job :: job in jobs && job.ou == ou && FileOfShare(fs, ou, job.path, f)
  }

  ghost predicate JobsUnrelated(jobs: seq<Job>) {
    forall a, b :: a in jobs && b in jobs ==> !Below(a.path, b.path)
  }

  /** Shares that are not nested never disagree about a file, so the order in
      which the map is written does not matter. */
  lemma SharesAgree(fs: Bcpfs, ou: string, p: string, p': string, f: ShareFile, f': ShareFile)
    requires FileOfShare(fs, ou, p, f) && FileOfShare(fs, ou, p', f') && f.path == f'.path
    requires !Below(p, p') && !Below(p', p)
    ensures f == f'
  {
    if f == ShareFile(SharedPath(fs, ou, p), LinkTarget(p)) {
      if f' == ShareFile(SharedPath(fs, ou, p'), LinkTarget(p')) {
        SharedPathInjective(fs, ou, p, p');
      } else {
        var q :| Below(p', q) && f' == ShareFile(SharedPath(fs, ou, q), "");
        SharedPathInjective(fs, ou, p, q);
      }
    } else {
      var q :| Below(p, q) && f == ShareFile(SharedPath(fs, ou, q), "");
      if f' == ShareFile(SharedPath(fs, ou, p'), LinkTarget(p')) {
        SharedPathInjective(fs, ou, q, p');
      }
    }
  }

  lemma {:induction false} BuildContent(fs: Bcpfs, jobs: seq<Job>, ou: string, f: ShareFile)
    requires JobsUnrelated(jobs)
    ensures ou in Build(fs, jobs) <==> exists job :: job in jobs && job.ou == ou
    ensures ou in Build(fs, jobs) ==>
              (f.path in Build(fs, jobs)[ou] && Build(fs, jobs)[ou][f.path] == f.target <==> JobFile(fs, jobs, ou, f))
  {
    if jobs != [] {
      var n := |jobs| - 1;
      var last := jobs[n];
      assert jobs == jobs[..n] + [last];
      assert forall job :: job in jobs <==> job in jobs[..n] || job == last;
      BuildContent(fs, jobs[..n], ou, f);
      if ou == last.ou {
        var tr, new_ := GetTree(Build(fs, jobs[..n]), ou), ShareEntries(fs, ou, last.path);
        assert Build(fs, jobs)[ou] == tr + new_;
        InShareEntries(fs, ou, last.path, f);
        if f.path in new_ && JobFile(fs, jobs[..n], ou, f) {
          var job :| job in jobs[..n] && job.ou == ou && FileOfShare(fs, ou, job.path, f);
          var f' := ShareFile(f.path, new_[f.path]);
          InShareEntries(fs, ou, last.path, f');
          SharesAgree(fs, ou, job.path, last.path, f, f');
        }
      }
    }
  }

  lemma {:induction false} InOwnJobs(shares: Exports, job: Job)
    ensures job in OwnJobs(shares) <==> exists s :: s in shares && job == Job(FirstPart(s.path), s.path)
  {
    if shares != [] {
      var n := |shares| - 1;
      InOwnJobs(shares[..n], job);
      assert shares == shares[..n] + [shares[n]];
      assert forall s :: s in shares <==> s in shares[..n] || s == shares[n];
    }
  }

  lemma {:induction false} InAclJobs(acl: Acl, path: string, job: Job)
    ensures job in AclJobs(acl, path) <==> job.path == path && job.ou in Grantees(acl)
  {
    if acl != [] {
      var n := |acl| - 1;
      InAclJobs(acl[..n], path, job);
      assert acl == acl[..n] + [acl[n]];
    }
  }

  lemma {:induction false} InOtherJobs(shares: Exports, job: Job)
    ensures job in OtherJobs(shares) <==> exists s :: s in shares && job.path == s.path && job.ou in Grantees(s.acl)
  {
    if shares != [] {
      var n := |shares| - 1;
      InOtherJobs(shares[..n], job);
      InAclJobs(shares[n].acl, shares[n].path, job);
      assert shares == shares[..n] + [shares[n]];
      assert forall s :: s in shares <==> s in shares[..n] || s == shares[n];
    }
  }

  lemma JobIsSharedWith(shares: Exports, job: Job)
    ensures job in OwnJobs(shares) + OtherJobs(shares) <==> SharedWith(shares, job.ou, job.path)
  {
    InOwnJobs(shares, job);
    InOtherJobs(shares, job);
  }

  ghost predicate ShareNamesClean(shares: Exports) {
    forall s :: s in shares ==> RelPath(s.path) && forall g :: g in Grantees(s.acl) ==> CleanName(g)
  }

  lemma PathInPaths(shares: Exports, s: ExportEntry)
    requires s in shares
    ensures s.path in Elements(PathsOf(shares))
  {
    var i :| 0 <= i < |shares| && shares[i] == s;
    assert PathsOf(shares)[i] == s.path;
  }

  /** The files of org unit `ou` in the map are those of the shares it sees. */
  lemma BuildIsShareTree(fs: Bcpfs, shares: Exports, ou: string, f: ShareFile)
    requires Antichain(Elements(PathsOf(shares)))
    ensures var m := Build(fs, OwnJobs(shares) + OtherJobs(shares));
            && (ou in m <==> exists p :: SharedWith(shares, ou, p))
            && (ou in m ==>
                  (f.path in m[ou] && m[ou][f.path] == f.target <==>
                   exists p :: SharedWith(shares, ou, p) && FileOfShare(fs, ou, p, f)))
  {
    var jobs := OwnJobs(shares) + OtherJobs(shares);
    forall job: Job ensures job in jobs <==> SharedWith(shares, job.ou, job.path) {
      JobIsSharedWith(shares, job);
    }
    forall a, b | a in jobs && b in jobs ensures !Below(a.path, b.path) {
      var s :| s in shares && s.path == a.path && (FirstPart(s.path) == a.ou || a.ou in Grantees(s.acl));
      var s' :| s' in shares && s'.path == b.path && (FirstPart(s'.path) == b.ou || b.ou in Grantees(s'.acl));
      PathInPaths(shares, s);
      PathInPaths(shares, s');
      assert Unrelated(s.path, Elements(PathsOf(shares)));
    }
    BuildContent(fs, jobs, ou, f);
    forall p | SharedWith(shares, ou, p) ensures Job(ou, p) in jobs {
    }
  }

  method CompileShareTrees(fs: Bcpfs, shares: Exports) returns (trees: seq<ShareTree>)
    requires fs.Valid() && ShareNamesClean(shares) && Antichain(Elements(PathsOf(shares)))
    ensures IsShareTrees(fs, shares, trees)
  {
    hide Build, Partial, OwnJobs, OtherJobs, Split, After;
    var builder := new TreeBuilder(fs);
    NoJobs(fs, shares);
    PartialEnds(shares);

    // Shares to self.
    for i := 0 to |shares|
      invariant fresh(builder) && builder.fs == fs
      invariant builder.trees == Build(fs, OwnJobs(shares[..i]))
    {
      var shr := shares[i];
      assert shr in shares;
      OwnStep(fs, shares, i);
      builder.AddShare(Parts(shr.path)[0], shr.path);
    }

    // Shares from others.
    for i := 0 to |shares|
      invariant fresh(builder) && builder.fs == fs
      invariant builder.trees == Build(fs, Partial(shares, i, 0))
    {
      var shr := shares[i];
      assert shr in shares;
      for j := 0 to |shr.acl|
        invariant fresh(builder) && builder.fs == fs
        invariant builder.trees == Build(fs, Partial(shares, i, j))
      {
        PartialStep(fs, shares, i, j);
        assert shr.acl[j] in shr.acl && shr.acl[j].group in Grantees(shr.acl);
        builder.AddShare(shr.acl[j].group, shr.path);
      }
      PartialNext(shares, i);
    }
    trees := SortedTrees(fs, shares, builder.trees);
  }

  lemma FilesAreShareTree(fs: Bcpfs, shares: Exports, ou: string, files: seq<ShareFile>)
    requires Antichain(Elements(PathsOf(shares))) && Ascending(FilePaths(files))
    requires ou in Build(fs, OwnJobs(shares) + OtherJobs(shares))
    requires var tr := Build(fs, OwnJobs(shares) + OtherJobs(shares))[ou];
             forall f :: f in files <==> f.path in tr && tr[f.path] == f.target
    ensures IsShareTree(fs, shares, ShareTree(ou, files))
  {
    forall f ensures f in files <==> exists p :: SharedWith(shares, ou, p) && FileOfShare(fs, ou, p, f) {
      BuildIsShareTree(fs, shares, ou, f);
    }
  }

  lemma OrgUnitsInvolved(fs: Bcpfs, shares: Exports, ous: seq<string>)
    requires Antichain(Elements(PathsOf(shares)))
    requires Elements(ous) == Build(fs, OwnJobs(shares) + OtherJobs(shares)).Keys
    ensures forall ou :: ou in ous <==> exists p :: SharedWith(shares, ou, p)
  {
    forall ou ensures ou in ous <==> exists p :: SharedWith(shares, ou, p) {
      BuildIsShareTree(fs, shares, ou, ShareFile("", ""));
      assert ou in ous <==> ou in Elements(ous);
    }
  }

  method SortedTrees(fs: Bcpfs, shares: Exports, m: map<string, TreeMap>) returns (trees: seq<ShareTree>)
    requires Antichain(Elements(PathsOf(shares))) && m == Build(fs, OwnJobs(shares) + OtherJobs(shares))
    ensures IsShareTrees(fs, shares, trees)
  {
    var ous := SortedKeys(m.Keys);
    trees := [];
    for i := 0 to |ous|
      invariant OrgUnits(trees) == ous[..i]
      invariant AllShareTrees(fs, shares, trees)
    {
      assert ous[i] in Elements(ous);
      var files := SortedFiles(m[ous[i]]);
      FilesAreShareTree(fs, shares, ous[i], files);
      TreesAppend(fs, shares, trees, ShareTree(ous[i], files));
      OrgUnitsPrefix(ous, i);
      trees := trees + [ShareTree(ous[i], files)];
    }
    OrgUnitsPrefix(ous, |ous|);
    OrgUnitsInvolved(fs, shares, ous);
  }

  lemma TreesAppend(fs: Bcpfs, shares: Exports, trees: seq<ShareTree>, t: ShareTree)
    requires AllShareTrees(fs, shares, trees) && IsShareTree(fs, shares, t)
    ensures AllShareTrees(fs, shares, trees + [t])
    ensures OrgUnits(trees + [t]) == OrgUnits(trees) + [t.orgUnit]
  {
    assert forall u :: u in trees + [t] <==> u in trees || u == t;
  }

  lemma OrgUnitsPrefix(ous: seq<string>, i: nat)
    requires i <= |ous|
    ensures i < |ous| ==> ous[..i + 1] == ous[..i] + [ous[i]]
    ensures i == |ous| ==> ous[..i] == ous
  {
  }
}
