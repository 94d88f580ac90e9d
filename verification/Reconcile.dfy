/** Driving a directory to a wanted layout: remove what is wrong in descending
    order, then create what is missing in ascending order.  This module says
    which system calls that is, and that they succeed from any content. */
module Reconcile {
  import opened Strings
  import opened Paths
  import opened Sharing
  import opened FileSystem

  /** A wanted directory or link, by absolute path. */
  datatype Entry = Entry(path: string, node: Node)

  /** The parent of the `i`-th entry is the root or an earlier directory. */
  ghost predicate ParentFirst(root: string, es: seq<Entry>, i: nat)
    requires i < |es|
  {
    || Parent(es[i].path) == root
    || exists j :: 0 <= j < i && es[j] == Entry(Parent(es[i].path), Dir)
  }

  ghost predicate EntryBelow(root: string, e: Entry) {
    !e.node.File? && Below(e.path, root) && ChildOf(e.path, Parent(e.path))
  }

  /** A layout below directory `root`: directories and links, each path once, and
      parents first. */
  ghost predicate Layout(root: string, es: seq<Entry>) {
    && (forall i, j :: 0 <= i < j < |es| ==> es[i].path != es[j].path)
    && (forall i :: 0 <= i < |es| ==> EntryBelow(root, es[i]) && ParentFirst(root, es, i))
  }

  lemma LayoutPrefix(root: string, es: seq<Entry>, i: nat)
    requires Layout(root, es) && i <= |es|
    ensures Layout(root, es[..i])
  {
    forall k | 0 <= k < i ensures ParentFirst(root, es[..i], k) {
      assert ParentFirst(root, es, k);
      if Parent(es[k].path) != root {
        var j :| 0 <= j < k && es[j] == Entry(Parent(es[k].path), Dir);
        assert es[..i][j] == es[j];
      }
    }
  }

  function Wanted(es: seq<Entry>): Nodes {
    if es == [] then map[] else Wanted(es[..|es| - 1])[es[|es| - 1].path := es[|es| - 1].node]
  }

  lemma {:induction false} InWanted(root: string, es: seq<Entry>, p: string)
    requires Layout(root, es)
    ensures p in Wanted(es) <==> exists i :: 0 <= i < |es| && es[i].path == p
    ensures forall i :: 0 <= i < |es| && es[i].path == p ==> Wanted(es)[p] == es[i].node
    ensures p in Wanted(es) ==> Below(p, root)
  {
    if es != [] {
      var n := |es| - 1;
      LayoutPrefix(root, es, n);
      InWanted(root, es[..n], p);
      assert EntryBelow(root, es[n]);
      if p in Wanted(es[..n]) {
        var i :| 0 <= i < n && es[..n][i].path == p;
        assert es[i].path == p;
      }
      forall i | 0 <= i < |es| && es[i].path == p ensures p in Wanted(es) && Wanted(es)[p] == es[i].node {
        if i < n { assert es[..n][i] == es[i]; }
      }
    }
  }

  /** What is at `p` is what the layout wants there. */
  predicate Right(nodes: Nodes, es: seq<Entry>, p: string) {
    p in nodes && p in Wanted(es) && nodes[p] == Wanted(es)[p]
  }

  function WrongPaths(nodes: Nodes, root: string, es: seq<Entry>): set<string> {
    set p | p in nodes && Below(p, root) && !Right(nodes, es, p)
  }

  /** The tree with everything below `root` replaced by the layout. */
  function Target(nodes: Nodes, root: string, es: seq<Entry>): Nodes {
    (map p | p in nodes && !Below(p, root) :: nodes[p]) + Wanted(es)
  }

  // The plan

  /** Removes the paths of an ascending list, the last one first. */
  function RemoveOps(paths: seq<string>): seq<Op> {
    seq(|paths|, i requires 0 <= i < |paths| => RemoveOp(paths[|paths| - 1 - i]))
  }

  lemma RemoveOpsLength(sorted: seq<string>)
    ensures |RemoveOps(sorted)| == |sorted|
  {
  }

  function CreateOp(e: Entry): Op {
    match e.node
    case Link(t) => SymlinkOp(t, e.path)
    case _ => MkdirOp(e.path)
  }

  /** Creates the entries that are not right yet, the first one first. */
  function CreateOps(nodes: Nodes, all: seq<Entry>, es: seq<Entry>): seq<Op> {
    if es == [] then []
    else
      var n := |es| - 1;
      CreateOps(nodes, all, es[..n]) + if Right(nodes, all, es[n].path) then [] else [CreateOp(es[n])]
  }

  ghost function Plan(nodes: Nodes, root: string, es: seq<Entry>): seq<Op> {
    RemoveOps(SortedSet(WrongPaths(nodes, root, es))) + CreateOps(nodes, es, es)
  }

  // Removal

  /** Every path between the root and an entry is a directory of the layout. */
  lemma {:induction false} AncestorWanted(root: string, es: seq<Entry>, i: nat, p: string)
    requires Layout(root, es) && i < |es| && Below(es[i].path, p) && Below(p, root)
    ensures exists j :: 0 <= j < i && es[j] == Entry(p, Dir)
    decreases i
  {
    var d := Parent(es[i].path);
    assert EntryBelow(root, es[i]) && ParentFirst(root, es, i);
    BelowParent(es[i].path, d, p);
    if d != root {
      var j :| 0 <= j < i && es[j] == Entry(d, Dir);
      if p != d { AncestorWanted(root, es, j, p); }
    }
  }

  /** Whatever lies below something wrong is wrong. */
  lemma WrongBelow(nodes: Nodes, root: string, es: seq<Entry>, p: string, q: string)
    requires WellFormed(nodes) && Layout(root, es)
    requires p in WrongPaths(nodes, root, es) && q in nodes && Below(q, p)
    ensures q in WrongPaths(nodes, root, es)
  {
    BelowTransitive(q, p, root);
    if Right(nodes, es, q) {
      InWanted(root, es, q);
      var i :| 0 <= i < |es| && es[i].path == q;
      AncestorWanted(root, es, i, p);
      AncestorsAreDirs(nodes, q, p);
      InWanted(root, es, p);
    }
  }

  lemma RunOneMore(nodes: Nodes, ops: seq<Op>, k: nat, mid: Nodes, next: Nodes)
    requires k < |ops| && Run(nodes, ops[..k]) == Done(mid) && Step(mid, ops[k]) == Done(next)
    ensures Run(nodes, ops[..k + 1]) == Done(next)
  {
    assert ops[..k + 1] == ops[..k] + [ops[k]];
    RunAppend(nodes, ops[..k], ops[k]);
  }

  lemma InTail(paths: seq<string>, i: nat, q: string)
    requires i <= |paths|
    ensures q in Elements(paths[i..]) <==> exists j :: i <= j < |paths| && paths[j] == q
  {
    if q in Elements(paths[i..]) {
      var j :| 0 <= j < |paths[i..]| && paths[i..][j] == q;
      assert paths[i + j] == q;
    }
    forall j | i <= j < |paths| && paths[j] == q ensures q in Elements(paths[i..]) {
      assert paths[i..][j - i] == q;
    }
  }

  /** Directories come before what is below them. */
  ghost predicate ParentsFirst(paths: seq<string>) {
    && NoDuplicates(paths)
    && forall i, j :: 0 <= i < |paths| && 0 <= j < |paths| && Below(paths[j], paths[i]) ==> i < j
  }

  lemma AscendingParentsFirst(paths: seq<string>)
    requires Ascending(paths)
    ensures ParentsFirst(paths)
  {
    AscendingNoDuplicates(paths);
    forall i, j | 0 <= i < |paths| && 0 <= j < |paths| && Below(paths[j], paths[i]) ensures i < j {
      BelowLess(paths[j], paths[i]);
      AscendingIndex(paths, i, j);
    }
  }

  lemma RemoveStep(nodes: Nodes, p: string)
    requires Locate(nodes, p) == Some(p) && p in nodes && !HasChildren(nodes, p)
    ensures Step(nodes, RemoveOp(p)) == Done(nodes - {p})
  {
  }

  /** When everything after the `i`-th wrong path is gone, that one is empty. */
  lemma RemoveNext(nodes: Nodes, root: string, es: seq<Entry>, paths: seq<string>, i: nat)
    requires WellFormed(nodes) && Layout(root, es)
    requires ParentsFirst(paths) && Elements(paths) == WrongPaths(nodes, root, es) && i < |paths|
    requires WellFormed(nodes - Elements(paths[i + 1..]))
    ensures var mid := nodes - Elements(paths[i + 1..]);
            Step(mid, RemoveOp(paths[i])) == Done(mid - {paths[i]}) && WellFormed(mid - {paths[i]})
  {
    hide Step, Locate, Layout, Wanted;
    var p, gone := paths[i], Elements(paths[i + 1..]);
    var mid := nodes - gone;
    assert p in Elements(paths);
    var d := Parent(p);
    InTail(paths, i + 1, p);
    InTail(paths, i + 1, d);
    LocateInDir(mid, p);
    forall q | q in nodes && Below(q, p) ensures q in gone {
      WrongBelow(nodes, root, es, p, q);
      assert q in Elements(paths);
      var j :| 0 <= j < |paths| && paths[j] == q;
      InTail(paths, i + 1, q);
    }
    RemoveStep(mid, p);
    RemoveKeepsWellFormed(mid, p);
  }

  lemma TailStep(nodes: Nodes, paths: seq<string>, i: nat)
    requires i < |paths|
    ensures nodes - Elements(paths[i..]) == (nodes - Elements(paths[i + 1..])) - {paths[i]}
  {
    assert paths[i..] == [paths[i]] + paths[i + 1..];
    ElementsCons(paths[i], paths[i + 1..]);
  }

  /** Descending order empties every directory before it is removed. */
  lemma {:induction false} RemovesSucceed(nodes: Nodes, root: string, es: seq<Entry>, paths: seq<string>, i: nat)
    returns (left: Nodes)
    requires WellFormed(nodes) && Layout(root, es)
    requires ParentsFirst(paths) && Elements(paths) == WrongPaths(nodes, root, es)
    requires i <= |paths|
    ensures left == nodes - Elements(paths[i..]) && WellFormed(left)
    ensures Run(nodes, RemoveOps(paths)[..|paths| - i]) == Done(left)
    decreases |paths| - i
  {
    if i < |paths| {
      var mid := RemovesSucceed(nodes, root, es, paths, i + 1);
      RemoveNext(nodes, root, es, paths, i);
      TailStep(nodes, paths, i);
      left := mid - {paths[i]};
      RunOneMore(nodes, RemoveOps(paths), |paths| - i - 1, mid, left);
    } else {
      NoElements(paths[i..]);
      left := nodes;
      assert nodes - {} == nodes;
      assert RemoveOps(paths)[..0] == [];
    }
  }

  // Creation

  function AllRight(nodes: Nodes, root: string, es: seq<Entry>): Nodes {
    nodes - WrongPaths(nodes, root, es)
  }

  lemma CreateStep(st: Nodes, e: Entry)
    requires Locate(st, e.path) == Some(e.path) && e.path !in st && !e.node.File?
    ensures Step(st, CreateOp(e)) == Done(st[e.path := e.node])
  {
  }

  lemma CreateInDir(st: Nodes, e: Entry)
    requires WellFormed(st) && IsDir(st, Parent(e.path)) && e.path !in st
    requires ChildOf(e.path, Parent(e.path)) && !e.node.File?
    ensures Step(st, CreateOp(e)) == Done(st[e.path := e.node])
    ensures WellFormed(st[e.path := e.node])
  {
    var d := Parent(e.path);
    LocateInDir(st, e.path);
    CreateStep(st, e);
    ChildSplit(e.path, d);
    AddKeepsWellFormed(st, d, e.path[|d| + 1..], e.node);
  }

  lemma AddLast(base: Nodes, es: seq<Entry>, i: nat)
    requires i < |es|
    ensures (base + Wanted(es[..i]))[es[i].path := es[i].node] == base + Wanted(es[..i + 1])
  {
    assert es[..i + 1][..i] == es[..i];
  }

  lemma CreateOpsStep(nodes: Nodes, all: seq<Entry>, es: seq<Entry>, i: nat)
    requires i < |es|
    ensures CreateOps(nodes, all, es[..i + 1]) ==
            CreateOps(nodes, all, es[..i]) + if Right(nodes, all, es[i].path) then [] else [CreateOp(es[i])]
  {
    assert es[..i + 1][..i] == es[..i];
  }

  /** When the entries before the `i`-th are there and that one is not, its parent
      is there too. */
  lemma CreateNext(nodes: Nodes, root: string, es: seq<Entry>, i: nat, st: Nodes) returns (next: Nodes)
    requires WellFormed(st) && IsDir(nodes, root) && Layout(root, es) && i < |es|
    requires st == AllRight(nodes, root, es) + Wanted(es[..i])
    requires !Right(nodes, es, es[i].path)
    ensures next == st[es[i].path := es[i].node] && WellFormed(next)
    ensures Step(st, CreateOp(es[i])) == Done(next)
  {
    var e := es[i];
    next := st[e.path := e.node];
    var p, d := e.path, Parent(e.path);
    assert EntryBelow(root, e) && ParentFirst(root, es, i);
    LayoutPrefix(root, es, i);
    InWanted(root, es[..i], p);
    InWanted(root, es[..i], d);
    if d == root {
      BelowIrreflexive(d);
    } else {
      var j :| 0 <= j < i && es[j] == Entry(d, Dir);
      assert es[..i][j] == es[j];
    }
    CreateInDir(st, e);
  }

  lemma CreateSkip(nodes: Nodes, root: string, es: seq<Entry>, i: nat, st: Nodes)
    requires Layout(root, es) && i < |es|
    requires st == AllRight(nodes, root, es) + Wanted(es[..i])
    requires Right(nodes, es, es[i].path)
    ensures st[es[i].path := es[i].node] == st
  {
    LayoutPrefix(root, es, i);
    InWanted(root, es[..i], es[i].path);
    InWanted(root, es, es[i].path);
  }

  lemma CreateOneMore(nodes: Nodes, root: string, es: seq<Entry>, base: Nodes, i: nat, ops: seq<Op>, st: Nodes)
    returns (ops': seq<Op>, st': Nodes)
    requires IsDir(nodes, root) && Layout(root, es) && i < |es|
    requires base == AllRight(nodes, root, es) && st == base + Wanted(es[..i]) && WellFormed(st)
    requires Run(base, ops) == Done(st)
    ensures st' == st[es[i].path := es[i].node] && WellFormed(st')
    ensures ops' == ops + if Right(nodes, es, es[i].path) then [] else [CreateOp(es[i])]
    ensures Run(base, ops') == Done(st')
  {
    if Right(nodes, es, es[i].path) {
      CreateSkip(nodes, root, es, i, st);
      ops', st' := ops, st;
    } else {
      st' := CreateNext(nodes, root, es, i, st);
      ops' := ops + [CreateOp(es[i])];
      RunSnoc(base, ops, st, CreateOp(es[i]), st');
    }
  }

  /** Ascending order creates every parent before its children. */
  lemma {:induction false} CreatesSucceed(nodes: Nodes, root: string, es: seq<Entry>, base: Nodes, i: nat)
    returns (ops: seq<Op>, st: Nodes)
    requires IsDir(nodes, root) && Layout(root, es) && i <= |es|
    requires base == AllRight(nodes, root, es) && WellFormed(base)
    ensures st == base + Wanted(es[..i]) && WellFormed(st)
    ensures ops == CreateOps(nodes, es, es[..i]) && Run(base, ops) == Done(st)
  {
    hide Run, Step, Layout, WellFormed, AllRight;
    if i == 0 {
      RunNothing(base);
      ops, st := [], base;
    } else {
      ops, st := CreatesSucceed(nodes, root, es, base, i - 1);
      AddLast(base, es, i - 1);
      CreateOpsStep(nodes, es, es, i - 1);
      ops, st := CreateOneMore(nodes, root, es, base, i - 1, ops, st);
    }
  }

  lemma RunSnoc(nodes: Nodes, ops: seq<Op>, mid: Nodes, op: Op, next: Nodes)
    requires Run(nodes, ops) == Done(mid) && Step(mid, op) == Done(next)
    ensures Run(nodes, ops + [op]) == Done(next)
  {
    RunAppend(nodes, ops, op);
  }

  /** Nothing runs after a failed system call. */
  lemma {:induction false} RunFailed(nodes: Nodes, ops: seq<Op>, more: seq<Op>)
    requires Run(nodes, ops).Failed?
    ensures Run(nodes, ops + more) == Run(nodes, ops)
  {
    if more == [] {
      assert ops + more == ops;
    } else {
      var n := |more| - 1;
      RunFailed(nodes, ops, more[..n]);
      assert (ops + more)[..|ops + more| - 1] == ops + more[..n];
    }
  }

  lemma {:induction false} RunConcat(nodes: Nodes, a: seq<Op>, mid: Nodes, b: seq<Op>)
    requires Run(nodes, a) == Done(mid)
    ensures Run(nodes, a + b) == Run(mid, b)
  {
    if b == [] {
      assert a + b == a;
    } else {
      var n := |b| - 1;
      RunConcat(nodes, a, mid, b[..n]);
      assert (a + b)[..|a + b| - 1] == a + b[..n];
    }
  }

  lemma RemovalsDone(nodes: Nodes, root: string, es: seq<Entry>)
    requires WellFormed(nodes) && Layout(root, es)
    ensures WellFormed(AllRight(nodes, root, es))
    ensures Run(nodes, RemoveOps(SortedSet(WrongPaths(nodes, root, es)))) == Done(AllRight(nodes, root, es))
  {
    var paths := SortedSet(WrongPaths(nodes, root, es));
    AscendingParentsFirst(paths);
    var left := RemovesSucceed(nodes, root, es, paths, 0);
    assert paths[0..] == paths && RemoveOps(paths)[..|paths|] == RemoveOps(paths);
  }

  lemma AllRightPlusWanted(nodes: Nodes, root: string, es: seq<Entry>)
    requires Layout(root, es)
    ensures AllRight(nodes, root, es) + Wanted(es) == Target(nodes, root, es)
  {
    forall p ensures p in Wanted(es) ==> Below(p, root) {
      InWanted(root, es, p);
    }
  }

  /** From any content below the root, the plan runs without a failing system
      call and leaves exactly the layout. */
  lemma PlanSucceeds(nodes: Nodes, root: string, es: seq<Entry>)
    requires WellFormed(nodes) && IsDir(nodes, root) && Layout(root, es)
    ensures Run(nodes, Plan(nodes, root, es)) == Done(Target(nodes, root, es))
    ensures WellFormed(Target(nodes, root, es))
  {
    RemovalsDone(nodes, root, es);
    var _, st := CreatesSucceed(nodes, root, es, AllRight(nodes, root, es), |es|);
    assert es[..|es|] == es;
    AllRightPlusWanted(nodes, root, es);
    RunConcat(nodes, RemoveOps(SortedSet(WrongPaths(nodes, root, es))), AllRight(nodes, root, es), CreateOps(nodes, es, es));
  }

  // Restarts

  lemma {:induction false} CreatePrefix(nodes: Nodes, all: seq<Entry>, es: seq<Entry>, k: nat) returns (i: nat)
    requires k <= |CreateOps(nodes, all, es)|
    ensures i <= |es| && CreateOps(nodes, all, es)[..k] == CreateOps(nodes, all, es[..i])
  {
    if es == [] {
      i := 0;
    } else if k == |CreateOps(nodes, all, es)| {
      i := |es|;
      assert es[..i] == es;
    } else {
      var n := |es| - 1;
      i := CreatePrefix(nodes, all, es[..n], k);
      assert es[..n][..i] == es[..i];
      assert CreateOps(nodes, all, es)[..k] == CreateOps(nodes, all, es[..n])[..k];
    }
  }

  lemma SameTarget(nodes: Nodes, mid: Nodes, root: string, es: seq<Entry>)
    requires forall p :: !Below(p, root) ==> (p in mid <==> p in nodes) && (p in nodes ==> mid[p] == nodes[p])
    ensures Target(mid, root, es) == Target(nodes, root, es)
    ensures IsDir(nodes, root) ==> IsDir(mid, root)
  {
    BelowIrreflexive(root);
  }

  lemma RemovalPrefix(nodes: Nodes, root: string, es: seq<Entry>, paths: seq<string>, i: nat) returns (mid: Nodes)
    requires WellFormed(nodes) && IsDir(nodes, root) && Layout(root, es)
    requires ParentsFirst(paths) && Elements(paths) == WrongPaths(nodes, root, es) && i <= |paths|
    ensures Run(nodes, RemoveOps(paths)[..|paths| - i]) == Done(mid) && WellFormed(mid) && IsDir(mid, root)
    ensures Target(mid, root, es) == Target(nodes, root, es)
  {
    mid := RemovesSucceed(nodes, root, es, paths, i);
    forall p ensures p in Elements(paths[i..]) ==> Below(p, root) {
      InTail(paths, i, p);
      assert p in Elements(paths[i..]) ==> p in Elements(paths);
    }
    SameTarget(nodes, mid, root, es);
  }

  lemma CreationPrefix(nodes: Nodes, root: string, es: seq<Entry>, k: nat) returns (mid: Nodes)
    requires WellFormed(AllRight(nodes, root, es)) && IsDir(nodes, root) && Layout(root, es)
    requires k <= |CreateOps(nodes, es, es)|
    ensures Run(AllRight(nodes, root, es), CreateOps(nodes, es, es)[..k]) == Done(mid)
    ensures WellFormed(mid) && IsDir(mid, root)
    ensures Target(mid, root, es) == Target(nodes, root, es)
  {
    var i := CreatePrefix(nodes, es, es, k);
    var _, st := CreatesSucceed(nodes, root, es, AllRight(nodes, root, es), i);
    mid := st;
    LayoutPrefix(root, es, i);
    forall p ensures p in Wanted(es[..i]) ==> Below(p, root) {
      InWanted(root, es[..i], p);
    }
    SameTarget(nodes, mid, root, es);
  }

  lemma TakeOfConcat(a: seq<Op>, b: seq<Op>, k: nat)
    requires k <= |a| + |b|
    ensures (a + b)[..k] == if k <= |a| then a[..k] else a + b[..k - |a|]
  {
  }

  /** The state after the first `k` system calls of a plan: only paths below the
      root have changed. */
  lemma PlanPrefix(nodes: Nodes, root: string, es: seq<Entry>, k: nat) returns (mid: Nodes)
    requires WellFormed(nodes) && IsDir(nodes, root) && Layout(root, es)
    requires k <= |Plan(nodes, root, es)|
    ensures Run(nodes, Plan(nodes, root, es)[..k]) == Done(mid) && WellFormed(mid) && IsDir(mid, root)
    ensures Target(mid, root, es) == Target(nodes, root, es)
  {
    hide Run, Step, SortedSet, Target, Layout, WellFormed, RemoveOps, CreateOps, WrongPaths;
    var paths := SortedSet(WrongPaths(nodes, root, es));
    var removes, creates := RemoveOps(paths), CreateOps(nodes, es, es);
    RemoveOpsLength(paths);
    TakeOfConcat(removes, creates, k);
    if k <= |removes| {
      AscendingParentsFirst(paths);
      mid := RemovalPrefix(nodes, root, es, paths, |paths| - k);
    } else {
      RemovalsDone(nodes, root, es);
      mid := CreationPrefix(nodes, root, es, k - |removes|);
      RunConcat(nodes, removes, AllRight(nodes, root, es), creates[..k - |removes|]);
    }
  }

  /** A run that stops after any number of system calls can be started over: the
      next run ends in the state that the first one was heading for. */
  lemma RestartReachesTarget(nodes: Nodes, root: string, es: seq<Entry>, k: nat)
    requires WellFormed(nodes) && IsDir(nodes, root) && Layout(root, es)
    requires k <= |Plan(nodes, root, es)|
    ensures
      var mid := Run(nodes, Plan(nodes, root, es)[..k]);
      mid.Done? && Run(mid.nodes, Plan(mid.nodes, root, es)) == Done(Target(nodes, root, es))
  {
    var mid := PlanPrefix(nodes, root, es, k);
    PlanSucceeds(mid, root, es);
  }

  /** There is nothing to do if and only if the layout is already there. */
  lemma PlanEmptyIffFinished(nodes: Nodes, root: string, es: seq<Entry>)
    requires WellFormed(nodes) && IsDir(nodes, root) && Layout(root, es)
    ensures Plan(nodes, root, es) == [] <==> nodes == Target(nodes, root, es)
  {
    if Plan(nodes, root, es) == [] {
      PlanSucceeds(nodes, root, es);
    }
    if nodes == Target(nodes, root, es) {
      NoElements(SortedSet(WrongPaths(nodes, root, es)));
      NothingMissing(nodes, root, es, |es|);
      assert es[..|es|] == es;
    }
  }

  lemma {:induction false} NothingMissing(nodes: Nodes, root: string, es: seq<Entry>, i: nat)
    requires Layout(root, es) && nodes == Target(nodes, root, es) && i <= |es|
    ensures CreateOps(nodes, es, es[..i]) == []
  {
    hide Layout, Target, Right;
    if i > 0 {
      NothingMissing(nodes, root, es, i - 1);
      CreateOpsStep(nodes, es, es, i - 1);
      FinishedEntry(nodes, root, es, i - 1);
      assert CreateOps(nodes, es, es[..i - 1]) + [] == CreateOps(nodes, es, es[..i - 1]);
    }
  }

  lemma FinishedEntry(nodes: Nodes, root: string, es: seq<Entry>, i: nat)
    requires Layout(root, es) && nodes == Target(nodes, root, es) && i < |es|
    ensures Right(nodes, es, es[i].path)
  {
    InWanted(root, es, es[i].path);
  }
}
