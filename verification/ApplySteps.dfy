/** Single steps of an apply run on paths that do not run through symbolic links, and
    what every step keeps in any tree. */
module ApplySteps {
  import opened Strings
  import opened Paths
  import opened Sharing
  import opened FileSystem
  import opened PosixAcl
  import opened DirScripts
  import opened FsApply

  // Growing trees

  /** Everything that is there stays as it is. */
  ghost predicate Grows(n0: Nodes, n1: Nodes) {
    forall p :: p in n0 ==> p in n1 && n1[p] == n0[p]
  }

  lemma GrowsTransitive(a: Nodes, b: Nodes, c: Nodes)
    requires Grows(a, b) && Grows(b, c)
    ensures Grows(a, c)
  {
  }

  /** A walk that succeeds leads to the same place in a larger tree. */
  lemma {:induction false} WalkGrows(n0: Nodes, n1: Nodes, cur: string, todo: seq<string>, links: nat)
    requires Grows(n0, n1) && Walk(n0, cur, todo, links).Some?
    ensures Walk(n1, cur, todo, links) == Walk(n0, cur, todo, links)
    decreases links, |todo|
  {
    if todo != [] {
      var c, rest := todo[0], todo[1..];
      if c == "" || c == "." {
        WalkGrows(n0, n1, cur, rest, links);
      } else if c == ".." {
        WalkGrows(n0, n1, Parent(cur), rest, links);
      } else {
        var child := cur + "/" + c;
        match n0[child]
        case Link(t) =>
          if t[0] == '/' {
            WalkGrows(n0, n1, "", Parts(t) + rest, links - 1);
          } else {
            WalkGrows(n0, n1, cur, Parts(t) + rest, links - 1);
          }
        case _ => WalkGrows(n0, n1, child, rest, links);
      }
    }
  }

  /** What is in both trees is the same there. */
  ghost predicate Agrees(n0: Nodes, n1: Nodes) {
    forall p :: p in n0 && p in n1 ==> n0[p] == n1[p]
  }

  ghost function Meet(n0: Nodes, n1: Nodes): Nodes {
    map p | p in n0 && p in n1 :: n0[p]
  }

  /** A walk that succeeds in two such trees uses only what is in both. */
  lemma {:induction false} WalkMeets(n0: Nodes, n1: Nodes, cur: string, todo: seq<string>, links: nat)
    requires Agrees(n0, n1) && Walk(n0, cur, todo, links).Some? && Walk(n1, cur, todo, links).Some?
    ensures Walk(n1, cur, todo, links) == Walk(n0, cur, todo, links) == Walk(Meet(n0, n1), cur, todo, links)
    decreases links, |todo|
  {
    if todo != [] {
      var c, rest := todo[0], todo[1..];
      if c == "" || c == "." {
        WalkMeets(n0, n1, cur, rest, links);
      } else if c == ".." {
        WalkMeets(n0, n1, Parent(cur), rest, links);
      } else {
        var child := cur + "/" + c;
        match n0[child]
        case Link(t) =>
          if t[0] == '/' {
            WalkMeets(n0, n1, "", Parts(t) + rest, links - 1);
          } else {
            WalkMeets(n0, n1, cur, Parts(t) + rest, links - 1);
          }
        case _ => WalkMeets(n0, n1, child, rest, links);
      }
    }
  }

  lemma ResolveMeets(n0: Nodes, n1: Nodes, p: string)
    requires Agrees(n0, n1) && Resolve(n0, p).Some? && Resolve(n1, p).Some?
    ensures Resolve(n1, p) == Resolve(n0, p) == Resolve(Meet(n0, n1), p)
  {
    hide Walk;
    WalkMeets(n0, n1, "", Parts(p)[1..], MAX_LINKS);
  }

  lemma ResolveGrows(n0: Nodes, n1: Nodes, p: string)
    requires Grows(n0, n1) && Resolve(n0, p).Some?
    ensures Resolve(n1, p) == Resolve(n0, p)
  {
    hide Walk;
    WalkGrows(n0, n1, "", Parts(p)[1..], MAX_LINKS);
  }

  lemma LocateGrows(n0: Nodes, n1: Nodes, p: string)
    requires Grows(n0, n1) && Locate(n0, p).Some?
    ensures Locate(n1, p) == Locate(n0, p)
  {
    hide Walk, Resolve;
    ResolveGrows(n0, n1, Parent(p));
  }

  /** A link that passed keeps passing while the tree only grows. */
  lemma LinkStays(n0: Nodes, n1: Nodes, dest: string, path: string)
    requires Grows(n0, n1) && IsDestSymlink(n0, dest, path)
    ensures IsDestSymlink(n1, dest, path)
  {
    hide Locate;
    LocateGrows(n0, n1, path);
  }

  // Paths without links

  /** Neither `p` nor anything above it is a link. */
  ghost predicate NoLinks(nodes: Nodes, p: string) {
    forall q :: q in nodes && (q == p || Below(p, q)) ==> !nodes[q].Link?
  }

  lemma DirHasNoLinks(nodes: Nodes, p: string)
    requires WellFormed(nodes) && IsDir(nodes, p)
    ensures NoLinks(nodes, p)
  {
    forall q | q in nodes && Below(p, q) ensures !nodes[q].Link? {
      AncestorsAreDirs(nodes, p, q);
    }
  }

  lemma {:induction false} WalkNone(nodes: Nodes, cur: string, a: seq<string>, b: seq<string>, links: nat)
    requires Walk(nodes, cur, a, links).None?
    ensures Walk(nodes, cur, a + b, links).None?
    decreases links, |a|
  {
    var todo := a + b;
    assert a != [];
    assert todo[0] == a[0] && todo[1..] == a[1..] + b;
    if IsDir(nodes, cur) {
      var c, rest := a[0], a[1..];
      if c == "" || c == "." {
        WalkNone(nodes, cur, rest, b, links);
      } else if c == ".." {
        WalkNone(nodes, Parent(cur), rest, b, links);
      } else {
        var child := cur + "/" + c;
        if child in nodes {
          match nodes[child]
          case Link(t) =>
            if links > 0 && t != "" {
              assert Parts(t) + (rest + b) == Parts(t) + rest + b;
              if t[0] == '/' {
                WalkNone(nodes, "", Parts(t) + rest, b, links - 1);
              } else {
                WalkNone(nodes, cur, Parts(t) + rest, b, links - 1);
              }
            }
          case _ => WalkNone(nodes, child, rest, b, links);
        }
      }
    }
  }

  /** A walk to a directory goes on to a child that is no link. */
  lemma {:induction false} WalkToChild(nodes: Nodes, cur: string, a: seq<string>, d: string, n: string, links: nat)
    requires Walk(nodes, cur, a, links) == Some(d) && IsDir(nodes, d) && CleanName(n)
    requires d + "/" + n in nodes && !nodes[d + "/" + n].Link?
    ensures Walk(nodes, cur, a + [n], links) == Some(d + "/" + n)
    decreases links, |a|
  {
    var todo := a + [n];
    if a == [] {
      assert todo == [n] && [n][1..] == [];
    } else {
      assert todo[0] == a[0] && todo[1..] == a[1..] + [n];
      var c, rest := a[0], a[1..];
      if c == "" || c == "." {
        WalkToChild(nodes, cur, rest, d, n, links);
      } else if c == ".." {
        WalkToChild(nodes, Parent(cur), rest, d, n, links);
      } else {
        var child := cur + "/" + c;
        match nodes[child]
        case Link(t) =>
          assert Parts(t) + (rest + [n]) == Parts(t) + rest + [n];
          if t[0] == '/' {
            WalkToChild(nodes, "", Parts(t) + rest, d, n, links - 1);
          } else {
            WalkToChild(nodes, cur, Parts(t) + rest, d, n, links - 1);
          }
        case _ => WalkToChild(nodes, child, rest, d, n, links);
      }
    }
  }

  lemma ResolveChild(nodes: Nodes, dir: string, d: string, n: string)
    requires Resolve(nodes, dir) == Some(d) && IsDir(nodes, d) && CleanName(n)
    requires d + "/" + n in nodes && !nodes[d + "/" + n].Link?
    ensures Resolve(nodes, dir + "/" + n) == Some(d + "/" + n)
  {
    hide Walk, Split;
    SplitJoin2(dir, n, '/');
    SplitPlain(n, '/');
    assert dir + ['/'] + n == dir + "/" + n;
    assert (Parts(dir) + [n])[1..] == Parts(dir)[1..] + [n];
    WalkToChild(nodes, "", Parts(dir)[1..], d, n, MAX_LINKS);
  }

  lemma WalkInto(nodes: Nodes, d: string, n: string, links: nat)
    requires CleanName(n) && (!IsDir(nodes, d) || d + "/" + n !in nodes)
    ensures Walk(nodes, d, [n], links).None?
  {
  }

  /** The absolute clean paths with the root, as keys of a tree. */
  predicate KeyPath(p: string) {
    (p == "" || p[0] == '/') && CleanNames(Parts(p)[1..])
  }

  lemma KeyChild(d: string, n: string)
    requires KeyPath(d) && CleanName(n)
    ensures KeyPath(d + "/" + n) && Parts(d + "/" + n) == Parts(d) + [n] && Parts(d + "/" + n)[1..] == Parts(d)[1..] + [n]
  {
    SplitJoin2(d, n, '/');
    SplitPlain(n, '/');
    assert (Parts(d) + [n])[1..] == Parts(d)[1..] + [n];
    if d != "" { assert (d + "/" + n)[0] == d[0]; } else { assert ("" + "/" + n)[0] == '/'; }
  }

  lemma KeyParent(p: string)
    requires KeyPath(p) && p != ""
    ensures ChildOf(p, Parent(p)) && KeyPath(Parent(p)) && |Parts(p)| == |Parts(Parent(p))| + 1
  {
    DescendParts(p);
    var names := Parts(p)[1..];
    if names != [] {
      var k := |names| - 1;
      var d := Descend("", names[..k]);
      MakeChild(d, names[k]);
      DescendKey(names[..k]);
      KeyChild(d, names[k]);
    }
  }

  lemma {:induction false} DescendKey(names: seq<string>)
    requires CleanNames(names)
    ensures KeyPath(Descend("", names))
  {
    if names == [] {
      assert Parts("") == [""];
      assert [""][1..] == [];
    } else {
      var k := |names| - 1;
      DescendKey(names[..k]);
      KeyChild(Descend("", names[..k]), names[k]);
    }
  }

  /** A path without links names itself if it exists and nothing otherwise. */
  lemma {:induction false} ResolvePlain(nodes: Nodes, p: string)
    requires WellFormed(nodes) && KeyPath(p) && NoLinks(nodes, p)
    ensures Resolve(nodes, p) == if p in nodes then Some(p) else None
    decreases |p|
  {
    hide Walk, WellFormed, Descend, Split;
    DescendParts(p);
    var names := Parts(p)[1..];
    if p in nodes {
      WalkDown(nodes, "", names, [], MAX_LINKS);
      assert names + [] == names;
      WalkNothing(nodes, p, MAX_LINKS);
    } else {
      RootIsThere(nodes);
      KeyParent(p);
      var d := Parent(p);
      ChildSplit(p, d);
      var n := p[|d| + 1..];
      KeyChild(d, n);
      assert NoLinks(nodes, d) by {
        forall q | q in nodes && (q == d || Below(d, q)) ensures !nodes[q].Link? {
          if q != d { BelowTransitive(p, d, q); }
        }
      }
      ResolvePlain(nodes, d);
      if d in nodes {
        DescendParts(d);
        WalkDown(nodes, "", Parts(d)[1..], [n], MAX_LINKS);
        WalkInto(nodes, d, n, MAX_LINKS);
      } else {
        WalkNone(nodes, "", Parts(d)[1..], [n], MAX_LINKS);
      }
    }
  }

  lemma WalkNothing(nodes: Nodes, cur: string, links: nat)
    ensures Walk(nodes, cur, [], links) == Some(cur)
  {
  }

  lemma RootIsThere(nodes: Nodes)
    requires WellFormed(nodes)
    ensures IsDir(nodes, "")
  {
  }

  lemma LocatePlain(nodes: Nodes, d: string, n: string)
    requires WellFormed(nodes) && KeyPath(d) && CleanName(n) && NoLinks(nodes, d)
    ensures Parent(d + "/" + n) == d
    ensures Locate(nodes, d + "/" + n) == if IsDir(nodes, d) then Some(d + "/" + n) else None
  {
    hide Walk, Resolve, WellFormed;
    MakeChild(d, n);
    ResolvePlain(nodes, d);
    assert (d + "/" + n)[|d|..] == "/" + n;
    assert d + ("/" + n) == d + "/" + n;
  }

  // Steps on such paths

  /** A script on `d/n`: at most `d/n` is made, as a directory. */
  lemma ScriptPlain(t: Tree, d: string, n: string, s: DirScript)
    requires WellFormed(t.nodes) && !t.err && KeyPath(d) && CleanName(n) && NoLinks(t.nodes, d)
    ensures var p := d + "/" + n;
            var r := RunScript(t, p, s);
            && WellFormed(r.nodes)
            && (p !in t.nodes && IsDir(t.nodes, d) ==>
                  r == Tree(t.nodes[p := Dir], t.acls[p := AfterScript(s, Inherit(AclAt(t.acls, d), RWX, R_X, R_X))], false))
            && (IsDir(t.nodes, p) ==> r == t.(acls := t.acls[p := AfterScript(s, AclAt(t.acls, p))]))
            && (p in t.nodes ==> r.nodes == t.nodes)
            && (p !in t.nodes && !IsDir(t.nodes, d) ==> r == t.(err := true))
            && (p in t.nodes && t.nodes[p] == File ==> r.err)
  {
    hide Walk, Resolve, Locate, AfterScript, Inherit, AclAt, WellFormed;
    var p := d + "/" + n;
    LocatePlain(t.nodes, d, n);
    MakeChild(d, n);
    KeyChild(d, n);
    assert (p in t.nodes && t.nodes[p].Link?) || NoLinks(t.nodes, p) by {
      if !(p in t.nodes && t.nodes[p].Link?) {
        forall q | q in t.nodes && (q == p || Below(p, q)) ensures !t.nodes[q].Link? {
          if q != p { BelowParent(p, d, q); }
        }
      }
    }
    if NoLinks(t.nodes, p) { ResolvePlain(t.nodes, p); }
    StepWellFormedIf(t.nodes, MkdirOp(p));
  }

  lemma StepWellFormedIf(nodes: Nodes, op: Op)
    requires WellFormed(nodes) && CleanOp(op)
    ensures Step(nodes, op).Done? ==> WellFormed(Step(nodes, op).nodes)
  {
    if Step(nodes, op).Done? { StepWellFormed(nodes, op); }
  }

  /** A link at `d/n`: if there is no error, it is in place and nothing else changed. */
  lemma MakeLinkPlain(t: Tree, d: string, n: string, dest: string)
    requires WellFormed(t.nodes) && !t.err && KeyPath(d) && CleanName(n) && IsDir(t.nodes, d)
    ensures var p := d + "/" + n;
            var r := MakeLink(t, dest, p);
            && WellFormed(r.nodes) && r.acls == t.acls
            && (r.nodes == t.nodes || (p !in t.nodes && r.nodes == t.nodes[p := Link(dest)]))
            && (!r.err ==> p in r.nodes && r.nodes[p] == Link(dest))
            && (dest != "" && (p !in t.nodes || t.nodes[p] == Link(dest)) ==> !r.err)
  {
    hide Walk, Resolve, Locate, WellFormed;
    var p := d + "/" + n;
    DirHasNoLinks(t.nodes, d);
    LocatePlain(t.nodes, d, n);
    MakeChild(d, n);
    StepWellFormedIf(t.nodes, SymlinkOp(dest, p));
  }

  /** A link in a directory that `dir` leads to: at most that link is made, and without an
      error it is in place. */
  lemma MakeLinkLed(t: Tree, dir: string, d: string, n: string, dest: string)
    requires WellFormed(t.nodes) && !t.err && CleanName(n) && Resolve(t.nodes, dir) == Some(d) && IsDir(t.nodes, d)
    ensures var p := d + "/" + n;
            var r := MakeLink(t, dest, dir + "/" + n);
            && Locate(t.nodes, dir + "/" + n) == Some(p)
            && WellFormed(r.nodes) && r.acls == t.acls
            && (r.nodes == t.nodes || (p !in t.nodes && r.nodes == t.nodes[p := Link(dest)]))
            && (!r.err ==> p in r.nodes && r.nodes[p] == Link(dest))
            && (dest != "" && (p !in t.nodes || t.nodes[p] == Link(dest)) ==> !r.err)
  {
    hide Resolve, Locate, WellFormed;
    LocateLed(t.nodes, dir, d, n);
    MakeChild(dir, n);
    MakeChild(d, n);
    StepWellFormedIf(t.nodes, SymlinkOp(dest, dir + "/" + n));
  }

  lemma LocateLed(nodes: Nodes, dir: string, d: string, n: string)
    requires CleanName(n) && Resolve(nodes, dir) == Some(d) && IsDir(nodes, d)
    ensures Parent(dir + "/" + n) == dir && Locate(nodes, dir + "/" + n) == Some(d + "/" + n)
  {
    hide Resolve;
    MakeChild(dir, n);
    assert (dir + "/" + n)[|dir|..] == "/" + n;
    assert d + ("/" + n) == d + "/" + n;
  }

  // Steps in any tree

  /** A script only adds directories. */
  ghost predicate AddsDirs(n0: Nodes, n1: Nodes) {
    Grows(n0, n1) && forall p :: p in n1 && p !in n0 ==> n1[p] == Dir
  }

  lemma ScriptAddsDirs(t: Tree, path: string, s: DirScript)
    requires WellFormed(t.nodes) && ChildOf(path, Parent(path))
    ensures WellFormed(RunScript(t, path, s).nodes) && AddsDirs(t.nodes, RunScript(t, path, s).nodes)
  {
    hide Walk, Resolve, Locate, AfterScript, Inherit, AclAt, WellFormed;
    StepWellFormedIf(t.nodes, MkdirOp(path));
  }

  /** After a script without error, its path leads to a directory. */
  lemma ScriptLeads(t: Tree, dir: string, n: string, s: DirScript)
    requires CleanName(n) && !RunScript(t, dir + "/" + n, s).err
    ensures var r := Resolve(RunScript(t, dir + "/" + n, s).nodes, dir + "/" + n);
            r.Some? && IsDir(RunScript(t, dir + "/" + n, s).nodes, r.value)
  {
    hide Resolve, AfterScript, Inherit, AclAt;
    var path, r := dir + "/" + n, RunScript(t, dir + "/" + n, s);
    var d := Resolve(t.nodes, path);
    if !(d.Some? && IsDir(t.nodes, d.value)) {
      MakeChild(dir, n);
      var top := Resolve(t.nodes, dir).value;
      assert path[|dir|..] == "/" + n;
      assert top + ("/" + n) == top + "/" + n;
      assert r.nodes == t.nodes[top + "/" + n := Dir];
      ResolveGrows(t.nodes, r.nodes, dir);
      ResolveChild(r.nodes, dir, top, n);
    }
  }

  lemma {:induction false} JobsAddDirs(t: Tree, jobs: seq<DirJob>)
    requires WellFormed(t.nodes) && forall i :: 0 <= i < |jobs| ==> ChildOf(jobs[i].path, Parent(jobs[i].path))
    ensures WellFormed(RunJobs(t, jobs).nodes) && AddsDirs(t.nodes, RunJobs(t, jobs).nodes)
    ensures !RunJobs(t, jobs).err ==> !t.err
  {
    hide RunScript, WellFormed;
    if jobs != [] {
      var n := |jobs| - 1;
      JobsAddDirs(t, jobs[..n]);
      ScriptAddsDirs(RunJobs(t, jobs[..n]), jobs[n].path, jobs[n].script);
      ScriptErr(RunJobs(t, jobs[..n]), jobs[n].path, jobs[n].script);
    }
  }

  lemma ScriptErr(t: Tree, path: string, s: DirScript)
    ensures t.err ==> RunScript(t, path, s) == t
  {
  }

  /** Without an error, the link passes its check afterwards. */
  lemma MakeLinkPasses(t: Tree, dest: string, path: string)
    requires WellFormed(t.nodes) && ChildOf(path, Parent(path))
    ensures var r := MakeLink(t, dest, path);
            && WellFormed(r.nodes) && Grows(t.nodes, r.nodes) && r.acls == t.acls
            && (!r.err ==> !t.err && IsDestSymlink(r.nodes, dest, path))
  {
    hide Walk, Resolve, Locate, WellFormed;
    var r := MakeLink(t, dest, path);
    StepWellFormedIf(t.nodes, SymlinkOp(dest, path));
    if Locate(t.nodes, path).Some? { LocateGrows(t.nodes, r.nodes, path); }
  }

  lemma {:induction false} LinkJobsPass(t: Tree, jobs: seq<LinkJob>)
    requires WellFormed(t.nodes) && forall i :: 0 <= i < |jobs| ==> ChildOf(jobs[i].path, Parent(jobs[i].path))
    ensures var r := RunLinkJobs(t, jobs);
            && WellFormed(r.nodes) && Grows(t.nodes, r.nodes) && r.acls == t.acls
            && (!r.err ==> !t.err && forall i :: 0 <= i < |jobs| ==> IsDestSymlink(r.nodes, jobs[i].dest, jobs[i].path))
  {
    hide MakeLink, IsDestSymlink, WellFormed;
    if jobs != [] {
      var n := |jobs| - 1;
      LinkJobsPass(t, jobs[..n]);
      var mid, r := RunLinkJobs(t, jobs[..n]), RunLinkJobs(t, jobs);
      MakeLinkPasses(mid, jobs[n].dest, jobs[n].path);
      if !r.err {
        forall i | 0 <= i < n ensures IsDestSymlink(r.nodes, jobs[i].dest, jobs[i].path) {
          assert jobs[..n][i] == jobs[i];
          LinkStays(mid.nodes, r.nodes, jobs[i].dest, jobs[i].path);
        }
      }
    }
  }

  // Clean-up

  /** What a clean-up of directory `d` may remove: unexpected children. */
  ghost predicate MayGo(nodes: Nodes, d: string, expected: set<string>, links: bool, p: string) {
    p in nodes && ChildOf(p, d) && Unexpected(Child(p[|d| + 1..], nodes[p]), expected, links)
  }

  ghost predicate OnlyRemoves(n0: Nodes, n1: Nodes, d: string, expected: set<string>, links: bool) {
    Grows(n1, n0) && forall p :: p in n0 && p !in n1 ==> MayGo(n0, d, expected, links, p)
  }

  ghost predicate ListsChildren(nodes: Nodes, d: string, cs: seq<Child>) {
    forall i :: 0 <= i < |cs| ==>
      CleanName(cs[i].name) && d + "/" + cs[i].name in nodes && nodes[d + "/" + cs[i].name] == cs[i].node
  }

  /** A removal below `dir` hits the child of the directory that `dir` led to before. */
  lemma RemoveHits(n0: Nodes, n1: Nodes, dir: string, d: string, name: string)
    requires Grows(n1, n0) && Resolve(n0, dir) == Some(d) && CleanName(name)
    ensures Parent(dir + "/" + name) == dir && ChildOf(dir + "/" + name, dir)
    ensures Locate(n1, dir + "/" + name).Some? ==> Locate(n1, dir + "/" + name) == Some(d + "/" + name)
  {
    hide Resolve;
    var path := dir + "/" + name;
    MakeChild(dir, name);
    if Resolve(n1, dir).Some? { ResolveGrows(n1, n0, dir); }
    assert path[|dir|..] == "/" + name;
    assert d + ("/" + name) == d + "/" + name;
  }

  lemma RemoveOne(t: Tree, mid: Tree, dir: string, d: string, c: Child, expected: set<string>, links: bool)
    requires WellFormed(mid.nodes) && Resolve(t.nodes, dir) == Some(d) && Unexpected(c, expected, links)
    requires CleanName(c.name) && d + "/" + c.name in t.nodes && t.nodes[d + "/" + c.name] == c.node
    requires OnlyRemoves(t.nodes, mid.nodes, d, expected, links)
    ensures var r := RemoveChild(mid, dir + "/" + c.name, links);
            WellFormed(r.nodes) && r.acls == mid.acls && OnlyRemoves(t.nodes, r.nodes, d, expected, links)
  {
    hide Resolve, Locate, WellFormed, Unexpected;
    var path := dir + "/" + c.name;
    var p := d + "/" + c.name;
    RemoveHits(t.nodes, mid.nodes, dir, d, c.name);
    StepWellFormedIf(mid.nodes, RemoveOp(path));
    MakeChild(d, c.name);
    assert p[|d| + 1..] == c.name;
    assert MayGo(t.nodes, d, expected, links, p);
    var r := RemoveChild(mid, path, links);
    assert r.nodes == mid.nodes || r.nodes == mid.nodes - {p};
  }

  lemma {:induction false} RemoveSpec(t: Tree, dir: string, d: string, cs: seq<Child>, expected: set<string>, links: bool)
    requires WellFormed(t.nodes) && Resolve(t.nodes, dir) == Some(d) && ListsChildren(t.nodes, d, cs)
    ensures var r := RemoveChildren(t, dir, cs, expected, links);
            WellFormed(r.nodes) && r.acls == t.acls && OnlyRemoves(t.nodes, r.nodes, d, expected, links)
  {
    hide Resolve, WellFormed, RemoveChild, OnlyRemoves, Unexpected;
    if cs == [] {
      NothingRemoved(t.nodes, d, expected, links);
    } else {
      var n := |cs| - 1;
      RemoveSpec(t, dir, d, cs[..n], expected, links);
      if Unexpected(cs[n], expected, links) {
        RemoveOne(t, RemoveChildren(t, dir, cs[..n], expected, links), dir, d, cs[n], expected, links);
      }
    }
  }

  lemma NothingRemoved(nodes: Nodes, d: string, expected: set<string>, links: bool)
    ensures OnlyRemoves(nodes, nodes, d, expected, links)
  {
  }

  lemma ReadDirLists(nodes: Nodes, path: string)
    requires ReadDir(nodes, path).Some?
    ensures Resolve(nodes, path).Some? && ListsChildren(nodes, Resolve(nodes, path).value, ReadDir(nodes, path).value)
  {
    hide Resolve;
    var d := Resolve(nodes, path).value;
    var names := SortedSet(ChildNames(nodes, d));
    ChildNamesIn(nodes, d, names);
    forall i | 0 <= i < |names| ensures CleanName(names[i]) {
      assert names[i] in Elements(names);
      ChildNameIn(nodes, d, names[i]);
    }
  }

  /** A clean-up removes only unexpected children of the directory it reads. */
  lemma RmUnexpectedSpec(t: Tree, dir: string, expected: set<string>, links: bool)
    requires WellFormed(t.nodes)
    ensures var r := RmUnexpected(t, dir, expected, links);
            && WellFormed(r.nodes) && r.acls == t.acls && Grows(r.nodes, t.nodes)
            && (!r.err ==> !t.err)
            && (Resolve(t.nodes, dir).None? ==> r.nodes == t.nodes)
            && (Resolve(t.nodes, dir).Some? ==> OnlyRemoves(t.nodes, r.nodes, Resolve(t.nodes, dir).value, expected, links))
  {
    hide Resolve, WellFormed, RemoveChildren;
    if Resolve(t.nodes, dir).Some? { NothingRemoved(t.nodes, Resolve(t.nodes, dir).value, expected, links); }
    if !t.err && ReadDir(t.nodes, dir).Some? {
      ReadDirLists(t.nodes, dir);
      RemoveSpec(t, dir, Resolve(t.nodes, dir).value, ReadDir(t.nodes, dir).value, expected, links);
    }
  }

  /** If nothing may go, a clean-up succeeds and changes nothing. */
  lemma {:induction false} NothingToRemove(t: Tree, dir: string, cs: seq<Child>, expected: set<string>, links: bool)
    requires forall i :: 0 <= i < |cs| ==> !Unexpected(cs[i], expected, links)
    ensures RemoveChildren(t, dir, cs, expected, links) == t
  {
    if cs != [] { NothingToRemove(t, dir, cs[..|cs| - 1], expected, links); }
  }

  lemma CleanAlready(t: Tree, dir: string, expected: set<string>, links: bool)
    requires WellFormed(t.nodes) && Resolve(t.nodes, dir).Some? && IsDir(t.nodes, Resolve(t.nodes, dir).value)
    requires forall p :: !MayGo(t.nodes, Resolve(t.nodes, dir).value, expected, links, p)
    ensures RmUnexpected(t, dir, expected, links) == t
  {
    hide Resolve, WellFormed, Unexpected;
    var d := Resolve(t.nodes, dir).value;
    ReadDirLists(t.nodes, dir);
    var cs := ReadDir(t.nodes, dir).value;
    forall i | 0 <= i < |cs| ensures !Unexpected(cs[i], expected, links) {
      MakeChild(d, cs[i].name);
      var p := d + "/" + cs[i].name;
      assert p[|d| + 1..] == cs[i].name;
      assert !MayGo(t.nodes, d, expected, links, p);
      assert Child(p[|d| + 1..], t.nodes[p]) == cs[i];
    }
    NothingToRemove(t, dir, cs, expected, links);
  }

  /** What a clean-up without error leaves of an unexpected child: nothing, or a
      directory that is not empty. */
  ghost predicate Gone(nodes: Nodes, p: string, links: bool) {
    p !in nodes || (!links && HasChildren(nodes, p))
  }

  lemma GoneStays(n0: Nodes, n1: Nodes, d: string, n: string, m: string, links: bool)
    requires CleanName(n) && CleanName(m) && Gone(n0, d + "/" + n, links) && (n1 == n0 || n1 == n0 - {d + "/" + m})
    ensures Gone(n1, d + "/" + n, links)
  {
    var p, gone := d + "/" + n, d + "/" + m;
    if p in n1 && !links {
      var q :| q in n0 && Below(q, p);
      MakeChild(d, n);
      MakeChild(d, m);
      if q == gone { BelowParent(gone, d, p); }
      assert q in n1;
    }
  }

  lemma RemoveGone(t: Tree, mid: Tree, dir: string, d: string, c: Child, links: bool)
    requires Grows(mid.nodes, t.nodes) && Resolve(t.nodes, dir) == Some(d) && CleanName(c.name)
    ensures var r := RemoveChild(mid, dir + "/" + c.name, links);
            && (r.nodes == mid.nodes || r.nodes == mid.nodes - {d + "/" + c.name})
            && (!r.err ==> !mid.err && Gone(r.nodes, d + "/" + c.name, links))
  {
    hide Resolve, Locate;
    RemoveHits(t.nodes, mid.nodes, dir, d, c.name);
  }

  lemma {:induction false} RemoveComplete(t: Tree, dir: string, d: string, cs: seq<Child>, expected: set<string>, links: bool)
    requires WellFormed(t.nodes) && Resolve(t.nodes, dir) == Some(d) && ListsChildren(t.nodes, d, cs)
    ensures var r := RemoveChildren(t, dir, cs, expected, links);
            !r.err ==> forall i :: 0 <= i < |cs| && Unexpected(cs[i], expected, links) ==> Gone(r.nodes, d + "/" + cs[i].name, links)
  {
    hide Resolve, WellFormed, RemoveChild, OnlyRemoves, Unexpected, Gone;
    if cs != [] {
      var n := |cs| - 1;
      RemoveComplete(t, dir, d, cs[..n], expected, links);
      RemoveSpec(t, dir, d, cs[..n], expected, links);
      var mid, r := RemoveChildren(t, dir, cs[..n], expected, links), RemoveChildren(t, dir, cs, expected, links);
      OnlyRemovesShrinks(t.nodes, mid.nodes, d, expected, links);
      RemoveGone(t, mid, dir, d, cs[n], links);
      if !r.err {
        forall i | 0 <= i < |cs| && Unexpected(cs[i], expected, links) ensures Gone(r.nodes, d + "/" + cs[i].name, links) {
          if i < n {
            assert cs[..n][i] == cs[i];
            GoneStays(mid.nodes, r.nodes, d, cs[i].name, cs[n].name, links);
          }
        }
      }
    }
  }

  lemma OnlyRemovesShrinks(n0: Nodes, n1: Nodes, d: string, expected: set<string>, links: bool)
    requires OnlyRemoves(n0, n1, d, expected, links)
    ensures Grows(n1, n0)
  {
  }

  lemma ReadDirComplete(nodes: Nodes, path: string, p: string) returns (i: nat)
    requires ReadDir(nodes, path).Some? && p in nodes && ChildOf(p, Resolve(nodes, path).value)
    ensures i < |ReadDir(nodes, path).value| && p == Resolve(nodes, path).value + "/" + ReadDir(nodes, path).value[i].name
    ensures ReadDir(nodes, path).value[i] == Child(p[|Resolve(nodes, path).value| + 1..], nodes[p])
  {
    hide Resolve;
    var d := Resolve(nodes, path).value;
    var names := SortedSet(ChildNames(nodes, d));
    ChildNamesIn(nodes, d, names);
    ChildSplit(p, d);
    ChildNameIn(nodes, d, p[|d| + 1..]);
    assert p[|d| + 1..] in Elements(names);
    i :| 0 <= i < |names| && names[i] == p[|d| + 1..];
  }

  /** A clean-up without error has removed every unexpected child except directories
      that are not empty. */
  lemma RmUnexpectedComplete(t: Tree, dir: string, expected: set<string>, links: bool)
    requires WellFormed(t.nodes) && !RmUnexpected(t, dir, expected, links).err
    ensures Resolve(t.nodes, dir).Some?
    ensures forall p :: MayGo(t.nodes, Resolve(t.nodes, dir).value, expected, links, p) ==>
              Gone(RmUnexpected(t, dir, expected, links).nodes, p, links)
  {
    hide Resolve, WellFormed, RemoveChildren, Gone, ReadDir, ListsChildren, Unexpected;
    assert ReadDir(t.nodes, dir).Some?;
    ReadDirLists(t.nodes, dir);
    var d := Resolve(t.nodes, dir).value;
    RemoveComplete(t, dir, d, ReadDir(t.nodes, dir).value, expected, links);
    forall p | MayGo(t.nodes, d, expected, links, p)
      ensures Gone(RmUnexpected(t, dir, expected, links).nodes, p, links)
    {
      var i := ReadDirComplete(t.nodes, dir, p);
    }
  }
}
