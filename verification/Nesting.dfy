/** The two nesting checks of the sharing compiler.  Both mark every checked path
    as a leaf of one tree and its proper ancestors as inner nodes, and stop
    climbing at the first inner mark they meet. */
module Nesting {
  import opened Strings
  import opened Paths

  datatype NodeType = Inner | Leaf

  ghost predicate HasBelow(leaves: set<string>, q: string) {
    exists l :: l in leaves && Below(l, q)
  }

  ghost predicate Unrelated(p: string, leaves: set<string>) {
    forall l :: l in leaves ==> !Below(l, p) && !Below(p, l)
  }

  /** No path is a proper ancestor of another one. */
  ghost predicate Antichain(paths: set<string>) {
    forall p :: p in paths ==> Unrelated(p, paths)
  }

  /** The leaves are the checked paths, the inner nodes are exactly their proper
      ancestors.  So the inner marks are closed under taking ancestors, and no
      leaf is an inner node. */
  ghost predicate Marks(tree: map<string, NodeType>, leaves: set<string>) {
    && (forall q :: q in leaves <==> q in tree && tree[q] == Leaf)
    && (forall q :: HasBelow(leaves, q) <==> q in tree && tree[q] == Inner)
  }

  /** `q` is a proper ancestor of `p` with more than `i` components. */
  ghost predicate AncestorFrom(p: string, i: nat, q: string) {
    exists j :: i < j < |Parts(p)| && q == Ancestor(p, j)
  }

  lemma AncestorStep(p: string, i: nat)
    requires 0 < i < |Parts(p)|
    ensures forall q :: AncestorFrom(p, i - 1, q) <==> AncestorFrom(p, i, q) || q == Ancestor(p, i)
    ensures Ancestor(p, i) != p && !AncestorFrom(p, i, Ancestor(p, i))
  {
    AncestorParts(p, i);
    forall j | i < j < |Parts(p)| ensures Ancestor(p, j) != Ancestor(p, i) {
      AncestorParts(p, j);
    }
    assert AncestorFrom(p, i - 1, Ancestor(p, i));
  }

  lemma MarksAt(p: string, tree: map<string, NodeType>, leaves: set<string>)
    requires Marks(tree, leaves)
    ensures p in leaves <==> p in tree && tree[p] == Leaf
    ensures p in tree && tree[p] == Inner ==> !Unrelated(p, leaves) && p !in leaves
  {
    assert HasBelow(leaves, p) <==> p in tree && tree[p] == Inner;
  }

  lemma NoAncestorFrom(p: string, n: nat)
    requires n == |Parts(p)| - 1
    ensures forall q :: !AncestorFrom(p, n, q)
  {
  }

  lemma AncestorAbove(p: string, i: nat)
    requires 0 < i < |Parts(p)|
    ensures Below(p, Ancestor(p, i))
  {
    BelowIffAncestor(p, Ancestor(p, i));
  }

  lemma MarksUnrelated(p: string, tree: map<string, NodeType>, leaves: set<string>)
    requires Marks(tree, leaves) && p in leaves
    ensures Unrelated(p, leaves)
  {
    forall l | l in leaves ensures !Below(l, p) && !Below(p, l) {
      assert Below(l, p) ==> HasBelow(leaves, p);
      assert Below(p, l) ==> HasBelow(leaves, l);
    }
  }

  /** The early exit: when the climb from `p` has met no mark above component
      `i`, and component `i` is inner already, then everything above it is inner,
      so no leaf was missed. */
  lemma ClimbedEnough(p: string, i: nat, tree: map<string, NodeType>, leaves: set<string>)
    requires Marks(tree, leaves) && p !in tree
    requires i < |Parts(p)|
    requires i > 0 ==> Ancestor(p, i) in tree && tree[Ancestor(p, i)] == Inner
    requires forall q :: AncestorFrom(p, i, q) ==> q !in tree
    ensures Unrelated(p, leaves)
    ensures forall j :: 0 < j <= i ==> HasBelow(leaves, Ancestor(p, j))
  {
    forall j | 0 < j <= i ensures HasBelow(leaves, Ancestor(p, j)) {
      var l :| l in leaves && Below(l, Ancestor(p, i));
      if j < i { AncestorNested(p, j, i); }
      assert Below(l, Ancestor(p, j));
    }
    forall j | 0 < j < |Parts(p)| ensures Ancestor(p, j) !in leaves {
      assert j > i ==> AncestorFrom(p, i, Ancestor(p, j));
    }
    forall l | l in leaves ensures !Below(l, p) && !Below(p, l) {
      assert Below(l, p) ==> HasBelow(leaves, p);
      BelowIffAncestor(p, l);
    }
  }

  /** Adding the leaf `p` and its unmarked ancestors keeps the tree's meaning. */
  lemma MarksExtended(p: string, i: nat, t0: map<string, NodeType>, t1: map<string, NodeType>, leaves: set<string>)
    requires Marks(t0, leaves) && p !in t0 && i < |Parts(p)|
    requires forall j :: 0 < j <= i ==> HasBelow(leaves, Ancestor(p, j))
    requires forall q :: q in t1 <==> q in t0 || q == p || AncestorFrom(p, i, q)
    requires forall q :: q in t0 ==> q in t1 && t1[q] == t0[q]
    requires p in t1 && t1[p] == Leaf
    requires forall q :: AncestorFrom(p, i, q) ==> q !in t0 && q in t1 && t1[q] == Inner
    ensures Marks(t1, leaves + {p})
  {
    var all := leaves + {p};
    forall q ensures HasBelow(all, q) <==> q in t1 && t1[q] == Inner {
      BelowIffAncestor(p, q);
      if HasBelow(leaves, q) {
        var l :| l in leaves && Below(l, q);
        assert l in all;
      } else if Below(p, q) {
        assert p in all;
        var j :| 0 < j < |Parts(p)| && q == Ancestor(p, j);
        assert j > i;
      } else {
        assert !AncestorFrom(p, i, q);
      }
    }
  }

  /** The tree that one nesting check fills.  The check on logical export paths
      refuses duplicates, the check on realpaths allows them. */
  class NestingTree {
    const allowDuplicates: bool
    var tree: map<string, NodeType>

    constructor (allowDuplicates: bool)
      ensures Marks(tree, {}) && this.allowDuplicates == allowDuplicates
    {
      this.allowDuplicates := allowDuplicates;
      tree := map[];
    }

    method CheckPath(p: string, ghost leaves: set<string>) returns (ok: bool)
      requires Marks(tree, leaves) && RelPath(p)
      modifies this`tree
      ensures ok <==> (p in leaves ==> allowDuplicates) && Unrelated(p, leaves)
      ensures ok ==> Marks(tree, leaves + {p})
    {
      hide Split, Join, Marks, AncestorFrom, Ancestor;
      MarksAt(p, tree, leaves);
      if p in tree && tree[p] == Leaf {
        MarksUnrelated(p, tree, leaves);
        assert leaves + {p} == leaves;
        return allowDuplicates;
      }
      if p in tree && tree[p] == Inner {
        return false;
      }
      NoAncestorFrom(p, |Parts(p)| - 1);
      ghost var t0 := tree;
      tree := tree[p := Leaf];

      var parts := Parts(p);
      var i := |parts| - 1;
      while i > 0
        invariant 0 <= i < |parts|
        invariant forall q :: q in tree <==> q in t0 || q == p || AncestorFrom(p, i, q)
        invariant forall q :: q in t0 ==> tree[q] == t0[q]
        invariant tree[p] == Leaf
        invariant forall q :: AncestorFrom(p, i, q) ==> q !in t0 && tree[q] == Inner
      {
        var prefix := Join(parts[..i]);
        JoinAncestor(p, i);
        AncestorStep(p, i);
        if prefix in tree && tree[prefix] == Leaf {
          AncestorAbove(p, i);
          MarksAt(prefix, t0, leaves);
          return false;
        }
        if prefix in tree && tree[prefix] == Inner {
          ClimbedEnough(p, i, t0, leaves);
          MarksExtended(p, i, t0, tree, leaves);
          return true;
        }
        tree := tree[prefix := Inner];
        i := i - 1;
      }
      ClimbedEnough(p, 0, t0, leaves);
      MarksExtended(p, 0, t0, tree, leaves);
      return true;
    }
  }

  lemma AntichainExtended(p: string, paths: set<string>)
    requires Antichain(paths)
    ensures Antichain(paths + {p}) <==> Unrelated(p, paths)
  {
    BelowIrreflexive(p);
    if Antichain(paths + {p}) {
      assert Unrelated(p, paths + {p});
    } else {
      var q, l :| q in paths + {p} && l in paths + {p} && (Below(l, q) || Below(q, l));
      assert q in paths && l in paths ==> Unrelated(q, paths);
    }
  }

  lemma AntichainSubset(sub: set<string>, paths: set<string>)
    requires Antichain(paths) && sub <= paths
    ensures Antichain(sub)
  {
    forall p | p in sub ensures Unrelated(p, sub) {
      assert Unrelated(p, paths);
    }
  }

  /** checkNoNesting and checkNoRealpathNesting on the list of paths they check:
      no error exactly when no path lies below another one and, unless
      duplicates are allowed, no path occurs twice. */
  method CheckNesting(paths: seq<string>, allowDuplicates: bool) returns (ok: bool)
    requires forall i :: 0 <= i < |paths| ==> RelPath(paths[i])
    ensures ok <==> Antichain(Elements(paths)) && (allowDuplicates || NoDuplicates(paths))
  {
    hide Marks;
    var tree := new NestingTree(allowDuplicates);
    assert Elements(paths[..0]) == {};
    for i := 0 to |paths|
      invariant fresh(tree) && tree.allowDuplicates == allowDuplicates
      invariant Marks(tree.tree, Elements(paths[..i]))
      invariant Antichain(Elements(paths[..i])) && (allowDuplicates || NoDuplicates(paths[..i]))
    {
      ghost var before := Elements(paths[..i]);
      PrefixElements(paths, i);
      AntichainExtended(paths[i], before);
      var fine := tree.CheckPath(paths[i], before);
      if !fine {
        if Antichain(Elements(paths)) {
          AntichainSubset(before + {paths[i]}, Elements(paths));
        }
        return false;
      }
    }
    assert paths[..|paths|] == paths;
    return true;
  }

  lemma PrefixElements(paths: seq<string>, i: nat)
    requires i < |paths|
    ensures Elements(paths[..i + 1]) == Elements(paths[..i]) + {paths[i]}
    ensures Elements(paths[..i + 1]) <= Elements(paths)
    ensures NoDuplicates(paths[..i + 1]) <==> NoDuplicates(paths[..i]) && paths[i] !in Elements(paths[..i])
    ensures NoDuplicates(paths) ==> NoDuplicates(paths[..i + 1])
  {
    assert paths[..i + 1] == paths[..i] + [paths[i]];
  }
}
