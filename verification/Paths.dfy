/** Slash-separated paths: what Go's path.Clean, path.Join and path.Dir compute,
    and the ancestor relation, both on the flat strings that the programs sort
    and on their lists of components. */
module Paths {
  import opened Strings

  function Parts(p: string): (r: seq<string>)
    ensures |r| >= 1
  {
    Split(p, '/')
  }

  /** A component that means itself: not empty, not `.` and not `..`. */
  predicate CleanName(n: string) {
    n != "" && n != "." && n != ".." && '/' !in n
  }

  predicate CleanNames(parts: seq<string>) {
    forall i :: 0 <= i < |parts| ==> CleanName(parts[i])
  }

  /** A relative path of one or more clean components. */
  predicate RelPath(p: string) {
    CleanNames(Parts(p))
  }

  /** An absolute path of one or more clean components. */
  predicate AbsPath(p: string) {
    |p| > 0 && p[0] == '/' && RelPath(p[1..])
  }

  // path.Clean and path.Join

  /** The component stack of path.Clean: empty and `.` components vanish, `..`
      removes the component before it, and is kept only where nothing can be
      removed from a relative path. */
  function CleanStack(stack: seq<string>, todo: seq<string>, rooted: bool): seq<string>
    decreases |todo|
  {
    if todo == [] then stack
    else
      var c := todo[0];
      var next :=
        if c == "" || c == "." then stack
        else if c == ".." then
          if |stack| > 0 && stack[|stack| - 1] != ".." then stack[..|stack| - 1]
          else if rooted then stack
          else stack + [c]
        else stack + [c];
      CleanStack(next, todo[1..], rooted)
  }

  /** path.Clean */
  function Clean(p: string): string {
    if p == "" then "."
    else
      var rooted := p[0] == '/';
      var stack := CleanStack([], Parts(p), rooted);
      if rooted then "/" + Concat(stack, '/')
      else if stack == [] then "."
      else Concat(stack, '/')
  }

  function NonEmpty(elems: seq<string>): seq<string> {
    if elems == [] then []
    else if elems[0] == "" then NonEmpty(elems[1..])
    else [elems[0]] + NonEmpty(elems[1..])
  }

  /** path.Join; filepath.Join agrees with it on Unix. */
  function Join(elems: seq<string>): string {
    if NonEmpty(elems) == [] then ""
    else Clean(Concat(NonEmpty(elems), '/'))
  }

  lemma {:induction false} NonEmptyAll(elems: seq<string>)
    requires forall i :: 0 <= i < |elems| ==> elems[i] != ""
    ensures NonEmpty(elems) == elems
  {
    if elems != [] {
      NonEmptyAll(elems[1..]);
      assert elems == [elems[0]] + elems[1..];
    }
  }

  lemma {:induction false} CleanStackNames(stack: seq<string>, names: seq<string>, rooted: bool)
    requires CleanNames(names)
    ensures CleanStack(stack, names, rooted) == stack + names
    decreases |names|
  {
    if names != [] {
      CleanStackNames(stack + [names[0]], names[1..], rooted);
      assert stack + [names[0]] + names[1..] == stack + names;
    }
  }

  /** n times `..` */
  function Ups(n: nat): seq<string> {
    seq(n, _ => "..")
  }

  lemma {:induction false} CleanStackUps(k: nat, n: nat, names: seq<string>)
    requires CleanNames(names)
    ensures CleanStack(Ups(k), Ups(n) + names, false) == Ups(k + n) + names
    decreases n
  {
    if n == 0 {
      CleanStackNames(Ups(k), names, false);
      assert Ups(0) + names == names && Ups(k + 0) == Ups(k);
    } else {
      assert (Ups(n) + names)[1..] == Ups(n - 1) + names;
      assert Ups(k) + [".."] == Ups(k + 1);
      CleanStackUps(k + 1, n - 1, names);
    }
  }

  /** path.Join only concatenates when the result is in normal form, that is,
      some `..` followed by clean components. */
  lemma JoinNormal(elems: seq<string>, n: nat, names: seq<string>)
    requires |elems| > 0 && forall i :: 0 <= i < |elems| ==> elems[i] != "" && elems[i][0] != '/'
    requires n + |names| > 0 && CleanNames(names)
    requires Parts(Concat(elems, '/')) == Ups(n) + names
    ensures Join(elems) == Concat(elems, '/')
  {
    NonEmptyAll(elems);
    var s := Concat(elems, '/');
    assert s != "" && s[0] == elems[0][0];
    CleanStackUps(0, n, names);
    assert Ups(0) == [];
    ConcatSplit(s, '/');
  }

  /** The components of several joined relative paths. */
  function AllParts(elems: seq<string>): seq<string> {
    if elems == [] then [] else Parts(elems[0]) + AllParts(elems[1..])
  }

  lemma {:induction false} PartsOfConcat(elems: seq<string>)
    requires |elems| > 0
    ensures Parts(Concat(elems, '/')) == AllParts(elems)
  {
    if |elems| > 1 {
      PartsOfConcat(elems[1..]);
      SplitJoin2(elems[0], Concat(elems[1..], '/'), '/');
    }
  }

  lemma {:induction false} AllPartsClean(elems: seq<string>)
    requires forall i :: 0 <= i < |elems| ==> RelPath(elems[i])
    ensures CleanNames(AllParts(elems))
  {
    if elems != [] { AllPartsClean(elems[1..]); }
  }

  lemma RelPathNotEmpty(p: string)
    requires RelPath(p)
    ensures p != "" && p[0] != '/'
  {
    assert CleanName(Parts(p)[0]);
  }

  /** Joining clean relative paths concatenates them. */
  lemma JoinRel(elems: seq<string>)
    requires |elems| > 0 && forall i :: 0 <= i < |elems| ==> RelPath(elems[i])
    ensures Join(elems) == Concat(elems, '/') && RelPath(Join(elems))
    ensures Parts(Join(elems)) == AllParts(elems)
  {
    hide Join, Split, Concat;
    forall i | 0 <= i < |elems| ensures elems[i] != "" && elems[i][0] != '/' {
      RelPathNotEmpty(elems[i]);
    }
    PartsOfConcat(elems);
    AllPartsClean(elems);
    assert Ups(0) + AllParts(elems) == AllParts(elems);
    JoinNormal(elems, 0, AllParts(elems));
  }

  /** Joining a clean relative path to a clean absolute one concatenates them. */
  lemma JoinAbs(root: string, p: string)
    requires AbsPath(root) && RelPath(p)
    ensures Join([root, p]) == root + "/" + p && AbsPath(root + "/" + p)
  {
    RelPathNotEmpty(p);
    var s := root + "/" + p;
    assert NonEmpty([root, p]) == [root] + NonEmpty([p]) && NonEmpty([p]) == [p];
    assert Concat([root, p], '/') == s;
    SplitJoin2(root, p, '/');
    SplitJoin2(root[1..], p, '/');
    assert s[1..] == root[1..] + "/" + p;
    var names := Parts(s[1..]);
    assert Parts(s) == [""] + names;
    assert CleanStack([], Parts(s), true) == CleanStack([], names, true) by {
      assert Parts(s)[1..] == names;
    }
    CleanStackNames([], names, true);
    assert [] + names == names;
    ConcatSplit(s[1..], '/');
    assert s == "/" + s[1..];
  }

  lemma NameIsRelPath(n: string)
    requires CleanName(n)
    ensures RelPath(n) && Parts(n) == [n]
  {
    SplitPlain(n, '/');
  }

  // Targets of the service links

  lemma UpTwo()
    ensures Parts("../..") == Ups(2)
  {
    SplitJoin2("..", "..", '/');
    SplitPlain("..", '/');
    assert ".." + ['/'] + ".." == "../..";
  }

  lemma TargetNotAbsolute(t: string, n: nat, names: seq<string>)
    requires n > 0 && Parts(t) == Ups(n) + names
    ensures t != "" && t[0] != '/'
  {
    assert Parts(t)[0] == "..";
    assert Parts("") == [""];
    assert t != "";
  }

  lemma {:induction false} AllPartsOfNames(names: seq<string>)
    requires CleanNames(names)
    ensures AllParts(names) == names
    ensures forall i :: 0 <= i < |names| ==> RelPath(names[i])
  {
    if names != [] {
      NameIsRelPath(names[0]);
      AllPartsOfNames(names[1..]);
      assert names == [names[0]] + names[1..];
      forall i | 0 <= i < |names| ensures RelPath(names[i]) {
        NameIsRelPath(names[i]);
      }
    }
  }

  /** From the directory of an org unit to the top of a service. */
  lemma TopTarget(serviceDir: string, srv: string)
    requires CleanName(serviceDir) && CleanName(srv)
    ensures var dest := Join(["../..", serviceDir, srv]);
            Parts(dest) == Ups(2) + [serviceDir, srv] && dest != "" && dest[0] != '/'
  {
    var names := [serviceDir, srv];
    var elems := ["../..", serviceDir, srv];
    UpTwo();
    PartsOfConcat(elems);
    AllPartsOfNames(names);
    assert elems[1..] == names;
    assert AllParts(elems) == Ups(2) + names;
    JoinNormal(elems, 2, names);
    TargetNotAbsolute(Join(elems), 2, names);
  }

  /** From there to the part of an org unit. */
  lemma OuTarget(serviceDir: string, srv: string, ou: string)
    requires CleanName(serviceDir) && CleanName(srv) && CleanName(ou)
    ensures var dest := Join([Join(["../..", serviceDir, srv]), ou]);
            Parts(dest) == Ups(2) + [serviceDir, srv, ou] && dest != "" && dest[0] != '/'
  {
    hide Join, Split, Concat;
    var dest := Join(["../..", serviceDir, srv]);
    TopTarget(serviceDir, srv);
    var names := [serviceDir, srv, ou];
    PartsOfConcat([dest, ou]);
    NameIsRelPath(ou);
    assert AllParts([ou]) == [ou] + AllParts([]);
    assert AllParts([dest, ou]) == Ups(2) + names;
    JoinNormal([dest, ou], 2, names);
    TargetNotAbsolute(Join([dest, ou]), 2, names);
  }

  // Ancestors

  /** `q` lies strictly below `p`. */
  predicate Below(q: string, p: string) {
    p + "/" <= q
  }

  /** On components, lying below is being a proper extension. */
  lemma BelowIffParts(q: string, p: string)
    ensures Below(q, p) <==> Parts(p) < Parts(q)
  {
    PrefixIffParts(p, q, '/');
  }

  /** Sorting a directory's path string puts it before everything below it, even
      though what lies below it need not be contiguous in sorted order. */
  lemma BelowLess(q: string, p: string)
    requires Below(q, p)
    ensures Less(p, q)
  {
    PrefixLess(p, q);
  }

  lemma BelowTransitive(r: string, q: string, p: string)
    requires Below(r, q) && Below(q, p)
    ensures Below(r, p)
  {
  }

  /** The name is what distinguishes the children of a directory. */
  lemma SameName(d: string, a: string, b: string)
    ensures d + "/" + a == d + "/" + b <==> a == b
  {
    assert (d + "/" + a)[|d| + 1..] == a && (d + "/" + b)[|d| + 1..] == b;
  }

  lemma BelowIrreflexive(p: string)
    ensures !Below(p, p)
  {
  }

  /** The ancestors of a path are linearly ordered. */
  lemma AncestorsComparable(p: string, q: string, r: string)
    requires Below(r, p) && Below(r, q)
    ensures p == q || Below(p, q) || Below(q, p)
  {
    if |p| == |q| {
      assert p == r[..|p|] == q;
    } else if |p| < |q| {
      assert q == r[..|q|];
      assert p + "/" == r[..|p| + 1] == q[..|p| + 1];
    } else {
      assert p == r[..|p|];
      assert q + "/" == r[..|q| + 1] == p[..|q| + 1];
    }
  }

  /** The ancestor with the first `i` components. */
  function Ancestor(p: string, i: nat): string
    requires i <= |Parts(p)|
  {
    Concat(Parts(p)[..i], '/')
  }

  lemma AncestorParts(p: string, i: nat)
    requires 0 < i <= |Parts(p)|
    ensures Parts(Ancestor(p, i)) == Parts(p)[..i]
  {
    SplitConcat(Parts(p)[..i], '/');
  }

  /** The strings above `p` are its component prefixes. */
  lemma BelowIffAncestor(p: string, q: string)
    ensures Below(p, q) <==> exists i :: 0 < i < |Parts(p)| && q == Ancestor(p, i)
  {
    BelowIffParts(p, q);
    if Below(p, q) {
      var i := |Parts(q)|;
      AncestorParts(p, i);
      assert Parts(q) == Parts(p)[..i];
      SplitInjective(q, Ancestor(p, i), '/');
      assert q == Ancestor(p, i);
    }
    forall i | 0 < i < |Parts(p)| && q == Ancestor(p, i) ensures Below(p, q) {
      AncestorParts(p, i);
    }
  }

  lemma AncestorNested(p: string, i: nat, j: nat)
    requires 0 < i < j <= |Parts(p)|
    ensures Below(Ancestor(p, j), Ancestor(p, i))
  {
    AncestorParts(p, i);
    AncestorParts(p, j);
    BelowIffParts(Ancestor(p, j), Ancestor(p, i));
  }

  lemma AncestorAll(p: string)
    ensures Ancestor(p, |Parts(p)|) == p
  {
    assert Parts(p)[..|Parts(p)|] == Parts(p);
    ConcatSplit(p, '/');
  }

  /** Joining the leading components of a clean path yields the ancestor. */
  lemma JoinAncestor(p: string, i: nat)
    requires RelPath(p) && 0 < i <= |Parts(p)|
    ensures Join(Parts(p)[..i]) == Ancestor(p, i) && RelPath(Ancestor(p, i))
  {
    var names := Parts(p)[..i];
    forall k | 0 <= k < |names| ensures RelPath(names[k]) {
      NameIsRelPath(names[k]);
    }
    JoinRel(names);
    AncestorParts(p, i);
  }

  // path.Dir and path.Base

  /** The path up to the last slash; the parent of `/a` is the empty string. */
  function Parent(p: string): (r: string)
    ensures |r| <= |p|
    ensures p != "" ==> |r| < |p|
  {
    if p == "" then ""
    else if p[|p| - 1] == '/' then p[..|p| - 1]
    else Parent(p[..|p| - 1])
  }

  lemma {:induction false} ParentOfChild(d: string, n: string)
    requires '/' !in n
    ensures Parent(d + "/" + n) == d
  {
    var p := d + "/" + n;
    if n == "" {
      assert p[..|p| - 1] == d;
    } else {
      var m := n[..|n| - 1];
      ParentOfChild(d, m);
      assert p[..|p| - 1] == d + "/" + m;
    }
  }

  /** `p` is a direct child of `d` with a clean name. */
  predicate ChildOf(p: string, d: string) {
    Below(p, d) && CleanName(p[|d| + 1..])
  }

  lemma ChildSplit(p: string, d: string)
    requires ChildOf(p, d)
    ensures p == d + "/" + p[|d| + 1..] && Parent(p) == d
  {
    assert p == d + "/" + p[|d| + 1..];
    ParentOfChild(d, p[|d| + 1..]);
  }

  lemma MakeChild(d: string, n: string)
    requires CleanName(n)
    ensures ChildOf(d + "/" + n, d) && Parent(d + "/" + n) == d
  {
    ParentOfChild(d, n);
    assert (d + "/" + n)[|d| + 1..] == n;
  }

  lemma DeeperHasSlash(p: string, q: string, d: string)
    requires Below(p, q) && Below(q, d)
    ensures '/' in p[|d| + 1..]
  {
    assert p[|d| + 1..][|q| - |d| - 1] == '/';
  }

  /** What lies below `q` above a child of `d` lies above `d`. */
  lemma BelowParent(p: string, d: string, q: string)
    requires ChildOf(p, d) && Below(p, q)
    ensures q == d || Below(d, q)
  {
    AncestorsComparable(q, d, p);
    if Below(q, d) { DeeperHasSlash(p, q, d); }
  }
}
