/** A POSIX file tree: directories, files and symbolic links by absolute path,
    the kernel's path walk, and the system calls that the programs use. */
module FileSystem {
  import opened Strings
  import opened Paths
  import opened Sharing

  datatype Node = Dir | File | Link(target: string)

  /** The tree; the key of the root directory is the empty string. */
  type Nodes = map<string, Node>

  predicate IsDir(nodes: Nodes, p: string) {
    p in nodes && nodes[p] == Dir
  }

  /** Every path but the root has a clean name in an existing directory. */
  ghost predicate WellFormed(nodes: Nodes) {
    && IsDir(nodes, "")
    && forall p :: p in nodes && p != "" ==> ChildOf(p, Parent(p)) && IsDir(nodes, Parent(p))
  }

  lemma {:induction false} AncestorsAreDirs(nodes: Nodes, q: string, p: string)
    requires WellFormed(nodes) && q in nodes && Below(q, p)
    ensures IsDir(nodes, p)
    decreases |q|
  {
    var d := Parent(q);
    assert ChildOf(q, d);
    BelowParent(q, d, p);
    if p != d { AncestorsAreDirs(nodes, d, p); }
  }

  // Path walk

  const MAX_LINKS: nat := 40

  /** The kernel's walk from directory `cur` along the components `todo`: a
      symbolic link is replaced by its target, and at most `links` of them are
      followed. */
  function Walk(nodes: Nodes, cur: string, todo: seq<string>, links: nat): Option<string>
    decreases links, |todo|
  {
    if todo == [] then Some(cur)
    else if !IsDir(nodes, cur) then None
    else
      var c, rest := todo[0], todo[1..];
      if c == "" || c == "." then Walk(nodes, cur, rest, links)
      else if c == ".." then Walk(nodes, Parent(cur), rest, links)
      else
        var child := cur + "/" + c;
        if child !in nodes then None
        else
          match nodes[child]
          case Link(t) =>
            if links == 0 || t == "" then None
            else if t[0] == '/' then Walk(nodes, "", Parts(t) + rest, links - 1)
            else Walk(nodes, cur, Parts(t) + rest, links - 1)
          case _ => Walk(nodes, child, rest, links)
  }

  function Descend(cur: string, names: seq<string>): string {
    if names == [] then cur
    else Descend(cur, names[..|names| - 1]) + "/" + names[|names| - 1]
  }

  lemma {:induction false} DescendConcat(cur: string, names: seq<string>)
    requires names != []
    ensures Descend(cur, names) == cur + "/" + Concat(names, '/')
  {
    var n := |names| - 1;
    if n > 0 {
      DescendConcat(cur, names[..n]);
      ConcatAppend(names[..n], [names[n]], '/');
      assert names == names[..n] + [names[n]];
    }
  }

  lemma DescendBelow(cur: string, names: seq<string>)
    requires names != []
    ensures Below(Descend(cur, names), cur)
  {
    DescendConcat(cur, names);
  }

  lemma WalkName(nodes: Nodes, cur: string, name: string, rest: seq<string>, links: nat)
    requires IsDir(nodes, cur) && CleanName(name)
    requires cur + "/" + name in nodes && !nodes[cur + "/" + name].Link?
    ensures Walk(nodes, cur, [name] + rest, links) == Walk(nodes, cur + "/" + name, rest, links)
  {
    assert ([name] + rest)[1..] == rest;
  }

  lemma WalkLink(nodes: Nodes, cur: string, name: string, rest: seq<string>, links: nat)
    requires IsDir(nodes, cur) && CleanName(name) && links > 0
    requires cur + "/" + name in nodes && nodes[cur + "/" + name].Link?
    requires nodes[cur + "/" + name].target != "" && nodes[cur + "/" + name].target[0] != '/'
    ensures Walk(nodes, cur, [name] + rest, links) ==
            Walk(nodes, cur, Parts(nodes[cur + "/" + name].target) + rest, links - 1)
  {
    assert ([name] + rest)[1..] == rest;
  }

  lemma MoveLast(names: seq<string>, rest: seq<string>)
    requires names != []
    ensures names + rest == names[..|names| - 1] + ([names[|names| - 1]] + rest)
  {
  }

  /** Walking down along existing directories just appends the names. */
  lemma {:induction false} WalkDown(nodes: Nodes, cur: string, names: seq<string>, rest: seq<string>, links: nat)
    requires WellFormed(nodes) && CleanNames(names)
    requires Descend(cur, names) in nodes && !nodes[Descend(cur, names)].Link?
    ensures Walk(nodes, cur, names + rest, links) == Walk(nodes, Descend(cur, names), rest, links)
    decreases |names|
  {
    hide Walk;
    if names == [] {
      assert names + rest == rest;
    } else {
      var n := |names| - 1;
      var d := Descend(cur, names[..n]);
      MakeChild(d, names[n]);
      assert IsDir(nodes, d);
      WalkDown(nodes, cur, names[..n], [names[n]] + rest, links);
      MoveLast(names, rest);
      WalkName(nodes, d, names[n], rest, links);
    }
  }

  /** Walking up again from there with `..` leads back. */
  lemma {:induction false} WalkUp(nodes: Nodes, cur: string, names: seq<string>, rest: seq<string>, links: nat)
    requires WellFormed(nodes) && CleanNames(names) && IsDir(nodes, Descend(cur, names))
    ensures Walk(nodes, Descend(cur, names), Ups(|names|) + rest, links) == Walk(nodes, cur, rest, links)
    decreases |names|
  {
    if names == [] {
      assert Ups(0) + rest == rest;
    } else {
      var n := |names| - 1;
      var d := Descend(cur, names[..n]);
      MakeChild(d, names[n]);
      assert (Ups(|names|) + rest)[1..] == Ups(n) + rest;
      WalkUp(nodes, cur, names[..n], rest, links);
    }
  }

  /** The directory, file or missing link target that an absolute path names when
      all links are followed, as for stat. */
  function Resolve(nodes: Nodes, p: string): Option<string> {
    Walk(nodes, "", Parts(p)[1..], MAX_LINKS)
  }

  /** The entry that an absolute path names when a link in the last component is
      not followed, as for lstat, mkdir, symlink and remove. */
  function Locate(nodes: Nodes, p: string): Option<string> {
    match Resolve(nodes, Parent(p))
    case Some(d) => if IsDir(nodes, d) && Below(p, Parent(p)) then Some(d + p[|Parent(p)|..]) else None
    case None => None
  }

  lemma {:induction false} DescendParts(p: string)
    requires p == "" || p[0] == '/'
    ensures Descend("", Parts(p)[1..]) == p
  {
    var names := Parts(p)[1..];
    if names != [] {
      DescendConcat("", names);
      assert p != "" by { assert Parts("") == [""]; }
      assert Parts(p) == [""] + Parts(p[1..]);
      ConcatSplit(p[1..], '/');
      assert p == "/" + p[1..];
    }
  }

  lemma ParentThere(nodes: Nodes, p: string)
    requires WellFormed(nodes) && p in nodes && p != ""
    ensures ChildOf(p, Parent(p)) && IsDir(nodes, Parent(p))
  {
  }

  lemma {:induction false} WellFormedParts(nodes: Nodes, p: string)
    requires WellFormed(nodes) && p in nodes
    ensures (p == "" || p[0] == '/') && CleanNames(Parts(p)[1..])
    decreases |p|
  {
    assert Parts("")[1..] == [];
    hide Split, Parent, WellFormed;
    if p != "" {
      var d := Parent(p);
      ParentThere(nodes, p);
      WellFormedParts(nodes, d);
      ChildSplit(p, d);
      var n := p[|d| + 1..];
      SplitJoin2(d, n, '/');
      SplitPlain(n, '/');
      assert Parts(p)[1..] == Parts(d)[1..] + [n];
    }
  }

  /** A path that runs through real directories names itself. */
  lemma ResolveDir(nodes: Nodes, p: string)
    requires WellFormed(nodes) && IsDir(nodes, p)
    ensures Resolve(nodes, p) == Some(p)
  {
    WellFormedParts(nodes, p);
    DescendParts(p);
    var names := Parts(p)[1..];
    WalkDown(nodes, "", names, [], MAX_LINKS);
    assert names + [] == names;
  }

  lemma LocateInDir(nodes: Nodes, p: string)
    requires WellFormed(nodes) && ChildOf(p, Parent(p)) && IsDir(nodes, Parent(p))
    ensures Locate(nodes, p) == Some(p)
  {
    ResolveDir(nodes, Parent(p));
    assert p == Parent(p) + p[|Parent(p)|..];
  }

  // System calls

  datatype Errno = ENOENT | EEXIST | ENOTEMPTY

  datatype Outcome = Done(nodes: Nodes) | Failed(errno: Errno)

  datatype Op = MkdirOp(path: string) | SymlinkOp(target: string, path: string) | RemoveOp(path: string)

  predicate HasChildren(nodes: Nodes, p: string) {
    exists q :: q in nodes && Below(q, p)
  }

  /** One system call on the tree. */
  function Step(nodes: Nodes, op: Op): Outcome {
    match Locate(nodes, op.path)
    case None => Failed(ENOENT)
    case Some(p) =>
      match op
      case MkdirOp(_) => if p in nodes then Failed(EEXIST) else Done(nodes[p := Dir])
      case SymlinkOp(t, _) => if p in nodes then Failed(EEXIST) else Done(nodes[p := Link(t)])
      case RemoveOp(_) =>
        if p !in nodes then Failed(ENOENT)
        else if HasChildren(nodes, p) then Failed(ENOTEMPTY)
        else Done(nodes - {p})
  }

  /** A sequence of successful system calls. */
  function Run(nodes: Nodes, ops: seq<Op>): Outcome {
    if ops == [] then Done(nodes)
    else
      match Run(nodes, ops[..|ops| - 1])
      case Failed(e) => Failed(e)
      case Done(mid) => Step(mid, ops[|ops| - 1])
  }

  lemma RunAppend(nodes: Nodes, ops: seq<Op>, op: Op)
    ensures Run(nodes, ops + [op]) ==
            match Run(nodes, ops) case Failed(e) => Failed(e) case Done(mid) => Step(mid, op)
  {
    assert (ops + [op])[..|ops|] == ops;
  }

  lemma RunNothing(nodes: Nodes)
    ensures Run(nodes, []) == Done(nodes)
  {
  }

  predicate CleanOp(op: Op) {
    ChildOf(op.path, Parent(op.path))
  }

  lemma AddKeepsWellFormed(nodes: Nodes, d: string, n: string, node: Node)
    requires WellFormed(nodes) && IsDir(nodes, d) && CleanName(n) && d + "/" + n !in nodes
    ensures WellFormed(nodes[d + "/" + n := node])
  {
    MakeChild(d, n);
  }

  lemma RemoveKeepsWellFormed(nodes: Nodes, p: string)
    requires WellFormed(nodes) && p != "" && !HasChildren(nodes, p)
    ensures WellFormed(nodes - {p})
  {
    forall q | q in nodes && q != "" ensures Parent(q) != p {
      assert ChildOf(q, Parent(q));
    }
  }

  /** System calls keep the tree well-formed. */
  lemma StepWellFormed(nodes: Nodes, op: Op)
    requires WellFormed(nodes) && CleanOp(op) && Step(nodes, op).Done?
    ensures WellFormed(Step(nodes, op).nodes)
  {
    var d := Resolve(nodes, Parent(op.path)).value;
    var n := op.path[|Parent(op.path)| + 1..];
    assert op.path[|Parent(op.path)|..] == "/" + n;
    assert d + ("/" + n) == d + "/" + n;
    assert Locate(nodes, op.path) == Some(d + "/" + n);
    match op
    case MkdirOp(_) => AddKeepsWellFormed(nodes, d, n, Dir);
    case SymlinkOp(t, _) => AddKeepsWellFormed(nodes, d, n, Link(t));
    case RemoveOp(_) => RemoveKeepsWellFormed(nodes, d + "/" + n);
  }

  class FileSystem {
    var nodes: Nodes
    /** Every successful modification; the programs log them. */
    var trace: seq<Op>

    ghost predicate Valid()
      reads this
    {
      WellFormed(nodes)
    }

    method Do(op: Op) returns (r: Outcome)
      requires Valid() && CleanOp(op)
      modifies this
      ensures Valid()
      ensures r == Step(old(nodes), op)
      ensures r.Done? ==> nodes == r.nodes && trace == old(trace) + [op]
      ensures r.Failed? ==> nodes == old(nodes) && trace == old(trace)
    {
      r := Step(nodes, op);
      if r.Done? {
        StepWellFormed(nodes, op);
        nodes := r.nodes;
        trace := trace + [op];
      }
    }
  }
}
