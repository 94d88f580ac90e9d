/** What an apply run leaves below the directories of the services. */
module ServiceCleanUp {
  import opened Strings
  import opened Paths
  import opened Sharing
  import opened FileSystem
  import opened PosixAcl
  import opened DirScripts
  import opened Organization
  import opened FsApply
  import opened ApplySteps
  import opened ApplySymlinks
  import opened ApplyLinks

  // A clean-up of a directory

  ghost predicate DistinctChildren(cs: seq<Child>) {
    forall i, j :: 0 <= i < j < |cs| ==> cs[i].name != cs[j].name
  }

  lemma ReadDirDistinct(nodes: Nodes, path: string)
    requires ReadDir(nodes, path).Some?
    ensures DistinctChildren(ReadDir(nodes, path).value)
  {
    hide Resolve, Ascending;
    var d := Resolve(nodes, path).value;
    var names := SortedSet(ChildNames(nodes, d));
    ChildNamesIn(nodes, d, names);
    AscendingNoDuplicates(names);
  }

  /** One removal from an existing directory never fails. */
  lemma RemoveOneSafe(t: Tree, d: string, n: string)
    requires WellFormed(t.nodes) && !t.err && IsDir(t.nodes, d) && CleanName(n) && d + "/" + n in t.nodes
    ensures var p := d + "/" + n;
            var r := RemoveChild(t, p, false);
            !r.err && (r.nodes == t.nodes || r.nodes == t.nodes - {p}) && WellFormed(r.nodes) && IsDir(r.nodes, d)
  {
    hide WellFormed, Resolve, Locate;
    var p := d + "/" + n;
    MakeChild(d, n);
    LocateInDir(t.nodes, p);
    StepWellFormedIf(t.nodes, RemoveOp(p));
  }

  lemma {:induction false} RemovalsSafe(t: Tree, d: string, cs: seq<Child>, expected: set<string>)
    requires WellFormed(t.nodes) && !t.err && IsDir(t.nodes, d) && ListsChildren(t.nodes, d, cs) && DistinctChildren(cs)
    ensures var r := RemoveChildren(t, d, cs, expected, false);
            && !r.err && WellFormed(r.nodes) && IsDir(r.nodes, d)
            && forall p :: p in t.nodes && (forall i :: 0 <= i < |cs| ==> p != d + "/" + cs[i].name) ==> p in r.nodes
  {
    hide WellFormed, RemoveChild, Unexpected;
    if cs != [] {
      var n := |cs| - 1;
      RemovalsSafe(t, d, cs[..n], expected);
      var mid := RemoveChildren(t, d, cs[..n], expected, false);
      forall i | 0 <= i < n ensures d + "/" + cs[i].name != d + "/" + cs[n].name {
        SameName(d, cs[i].name, cs[n].name);
      }
      if Unexpected(cs[n], expected, false) { RemoveOneSafe(mid, d, cs[n].name); }
    }
  }

  /** The clean-up of an existing service directory never fails, whatever is in it; a
      directory that is not empty just stays. */
  lemma CleanUpNeverFails(t: Tree, d: string, expected: set<string>)
    requires WellFormed(t.nodes) && IsDir(t.nodes, d)
    ensures RmUnexpected(t, d, expected, false).err <==> t.err
  {
    hide WellFormed, Resolve, RemoveChildren;
    ResolveDir(t.nodes, d);
    ReadDirLists(t.nodes, d);
    ReadDirDistinct(t.nodes, d);
    if !t.err { RemovalsSafe(t, d, ReadDir(t.nodes, d).value, expected); }
  }

  /** What is left of a child: unexpected directories without content go. */
  ghost predicate Goes(nodes: Nodes, p: string) {
    p in nodes && nodes[p] == Dir && !HasChildren(nodes, p)
  }

  lemma CleanUpExact(t: Tree, d: string, expected: set<string>)
    requires WellFormed(t.nodes) && IsDir(t.nodes, d) && !t.err
    ensures var r := RmUnexpected(t, d, expected, false);
            && WellFormed(r.nodes) && Grows(r.nodes, t.nodes)
            && (forall p :: p in t.nodes && !ChildOf(p, d) ==> p in r.nodes)
            && (forall n :: CleanName(n) && d + "/" + n in t.nodes ==>
                  (d + "/" + n in r.nodes <==> n in expected || !Goes(t.nodes, d + "/" + n)))
  {
    hide WellFormed, Resolve, RmUnexpected;
    ResolveDir(t.nodes, d);
    CleanUpNeverFails(t, d, expected);
    RmUnexpectedSpec(t, d, expected, false);
    RmUnexpectedComplete(t, d, expected, false);
    var r := RmUnexpected(t, d, expected, false);
    forall n | CleanName(n) && d + "/" + n in t.nodes
      ensures d + "/" + n in r.nodes <==> n in expected || !Goes(t.nodes, d + "/" + n)
    {
      var p := d + "/" + n;
      MakeChild(d, n);
      assert p[|d| + 1..] == n;
      ChildStays(t.nodes, r.nodes, d, p, expected);
    }
  }

  lemma ChildStays(n0: Nodes, n1: Nodes, d: string, p: string, expected: set<string>)
    requires WellFormed(n1) && OnlyRemoves(n0, n1, d, expected, false) && p in n0 && ChildOf(p, d)
    requires MayGo(n0, d, expected, false, p) ==> Gone(n1, p, false)
    ensures p in n1 <==> p[|d| + 1..] in expected || !Goes(n0, p)
  {
    hide WellFormed;
    if q :| q in n0 && Below(q, p) {
      ChildSplit(p, d);
      if ChildOf(q, d) { ChildSplit(q, d); BelowParent(q, d, p); }
      assert q in n1;
      AncestorsAreDirs(n1, q, p);
    }
  }

  // One service

  /** Nothing but direct children of `d` changes. */
  ghost predicate ChangesIn(n0: Nodes, n1: Nodes, d: string) {
    forall q :: !ChildOf(q, d) ==> (q in n0 <==> q in n1) && (q in n0 ==> n1[q] == n0[q])
  }

  /** An accepted org unit has this directory. */
  ghost predicate AcceptedDir(q: string, d: string, s: Service, ous: seq<OrgUnit>, filter: Filter) {
    exists j :: 0 <= j < |ous| && filter(s, ous[j]) && q == d + "/" + ous[j].name
  }

  /** Only such directories are new, and all of them are there. */
  ghost predicate SousMade(n0: Nodes, n1: Nodes, err: bool, d: string, s: Service, ous: seq<OrgUnit>, filter: Filter) {
    && AddsDirs(n0, n1)
    && (forall q :: q in n1 && q !in n0 ==> AcceptedDir(q, d, s, ous, filter))
    && (!err ==> forall j :: 0 <= j < |ous| && filter(s, ous[j]) ==> d + "/" + ous[j].name in n1)
  }

  lemma AcceptedLonger(q: string, d: string, s: Service, ous: seq<OrgUnit>, filter: Filter)
    requires ous != [] && AcceptedDir(q, d, s, ous[..|ous| - 1], filter)
    ensures AcceptedDir(q, d, s, ous, filter)
  {
    var n := |ous| - 1;
    var j :| 0 <= j < n && filter(s, ous[..n][j]) && q == d + "/" + ous[..n][j].name;
    assert ous[..n][j] == ous[j];
  }

  lemma NoSous(nodes: Nodes, err: bool, d: string, s: Service, filter: Filter)
    ensures SousMade(nodes, nodes, err, d, s, [], filter)
  {
  }

  lemma SousSkip(n0: Nodes, n1: Nodes, err: bool, d: string, s: Service, ous: seq<OrgUnit>, filter: Filter)
    requires ous != [] && SousMade(n0, n1, err, d, s, ous[..|ous| - 1], filter) && !filter(s, ous[|ous| - 1])
    ensures SousMade(n0, n1, err, d, s, ous, filter)
  {
    hide AcceptedDir;
    forall q | q in n1 && q !in n0 ensures AcceptedDir(q, d, s, ous, filter) {
      AcceptedLonger(q, d, s, ous, filter);
    }
    assert forall j :: 0 <= j < |ous| - 1 ==> ous[..|ous| - 1][j] == ous[j];
  }

  lemma SousMore(n0: Nodes, n1: Nodes, n2: Nodes, e1: bool, e2: bool, d: string, s: Service, ous: seq<OrgUnit>, filter: Filter)
    requires ous != [] && SousMade(n0, n1, e1, d, s, ous[..|ous| - 1], filter) && filter(s, ous[|ous| - 1]) && AddsDirs(n1, n2)
    requires forall q :: q in n2 && q !in n1 ==> q == d + "/" + ous[|ous| - 1].name
    requires !e2 ==> !e1 && d + "/" + ous[|ous| - 1].name in n2
    ensures SousMade(n0, n2, e2, d, s, ous, filter)
  {
    hide AcceptedDir;
    var n := |ous| - 1;
    forall q | q in n2 && q !in n0 ensures AcceptedDir(q, d, s, ous, filter) {
      if q in n1 { AcceptedLonger(q, d, s, ous, filter); } else { AcceptedLast(d, s, ous, filter); }
    }
    assert forall j :: 0 <= j < n ==> ous[..n][j] == ous[j];
  }

  lemma AcceptedLast(d: string, s: Service, ous: seq<OrgUnit>, filter: Filter)
    requires ous != [] && filter(s, ous[|ous| - 1])
    ensures AcceptedDir(d + "/" + ous[|ous| - 1].name, d, s, ous, filter)
  {
  }

  /** The directories of accepted org units are made. */
  lemma {:induction false} SouStage(t: Tree, root: string, s: Service, ous: seq<OrgUnit>, filter: Filter)
    requires WellFormed(t.nodes) && KeyPath(root + "/" + s.name) && IsDir(t.nodes, root + "/" + s.name)
    requires forall i :: 0 <= i < |ous| ==> CleanName(ous[i].name)
    ensures var r := RunJobs(t, SouJobs(root, s, ous, filter));
            WellFormed(r.nodes) && (!r.err ==> !t.err) && SousMade(t.nodes, r.nodes, r.err, root + "/" + s.name, s, ous, filter)
  {
    hide WellFormed, RunScript, KeyPath, SousMade, AddsDirs;
    NoLinkJobs(t);
    var d := root + "/" + s.name;
    if ous == [] {
      NoSous(t.nodes, t.err, d, s, filter);
    } else {
      var n := |ous| - 1;
      SouStage(t, root, s, ous[..n], filter);
      var jobs := SouJobs(root, s, ous[..n], filter);
      var mid := RunJobs(t, jobs);
      SousAdd(t.nodes, mid.nodes, mid.err, d, s, ous[..n], filter);
      if filter(s, ous[n]) {
        var job := SouJob(root, s, ous[n]);
        RunOneMore(t, jobs, job);
        DirAdded(t.nodes, mid.nodes, d);
        SouStep(mid, d, ous[n].name, job.script);
        var r := RunScript(mid, job.path, job.script);
        SousMore(t.nodes, mid.nodes, r.nodes, mid.err, r.err, d, s, ous, filter);
      } else {
        assert SouJobs(root, s, ous, filter) == jobs;
        SousSkip(t.nodes, mid.nodes, mid.err, d, s, ous, filter);
      }
    }
  }

  lemma SousAdd(n0: Nodes, n1: Nodes, err: bool, d: string, s: Service, ous: seq<OrgUnit>, filter: Filter)
    requires SousMade(n0, n1, err, d, s, ous, filter)
    ensures AddsDirs(n0, n1)
  {
  }

  lemma DirAdded(n0: Nodes, n1: Nodes, d: string)
    requires AddsDirs(n0, n1) && IsDir(n0, d)
    ensures IsDir(n1, d)
  {
  }

  lemma SouStep(t: Tree, d: string, n: string, s: DirScript)
    requires WellFormed(t.nodes) && KeyPath(d) && IsDir(t.nodes, d) && CleanName(n)
    ensures var r := RunScript(t, d + "/" + n, s);
            && WellFormed(r.nodes) && AddsDirs(t.nodes, r.nodes) && (!r.err ==> !t.err && d + "/" + n in r.nodes)
            && (forall q :: q in r.nodes && q !in t.nodes ==> q == d + "/" + n)
  {
    hide WellFormed, RunScript, KeyPath;
    MakeChild(d, n);
    ScriptErr(t, d + "/" + n, s);
    ScriptAddsDirs(t, d + "/" + n, s);
    DirHasNoLinks(t.nodes, d);
    if !t.err { ScriptPlain(t, d, n, s); }
  }

  lemma SiblingsApart(d: string, a: string, b: string)
    requires CleanName(a) && CleanName(b)
    ensures !Below(d + "/" + a, d + "/" + b)
  {
    MakeChild(d, a);
    MakeChild(d, b);
    if Below(d + "/" + a, d + "/" + b) { BelowParent(d + "/" + a, d, d + "/" + b); }
  }

  lemma NoNewContent(n0: Nodes, n1: Nodes, d: string, ous: seq<OrgUnit>, n: string)
    requires Grows(n0, n1) && CleanName(n) && forall i :: 0 <= i < |ous| ==> CleanName(ous[i].name)
    requires forall q :: q in n1 && q !in n0 ==> exists j :: 0 <= j < |ous| && q == d + "/" + ous[j].name
    ensures HasChildren(n0, d + "/" + n) <==> HasChildren(n1, d + "/" + n)
  {
    forall j | 0 <= j < |ous| ensures !Below(d + "/" + ous[j].name, d + "/" + n) {
      SiblingsApart(d, ous[j].name, n);
    }
  }

  /** What becomes of `d/n` when the service of directory `d` is processed. */
  ghost predicate ChildAfter(n0: Nodes, n1: Nodes, p: string, accepted: bool) {
    if accepted then p in n1 && n1[p] == if p in n0 then n0[p] else Dir
    else (p in n1 <==> p in n0 && !Goes(n0, p)) && (p in n1 ==> n1[p] == n0[p])
  }

  lemma ServiceStage(t: Tree, root: string, s: Service, ous: seq<OrgUnit>, filter: Filter)
    requires WellFormed(t.nodes) && KeyPath(root + "/" + s.name) && IsDir(t.nodes, root + "/" + s.name)
    requires forall i :: 0 <= i < |ous| ==> CleanName(ous[i].name)
    ensures var r := ServiceSubdirs(t, root, s, ous, filter);
            var d := root + "/" + s.name;
            && WellFormed(r.nodes) && ChangesIn(t.nodes, r.nodes, d)
            && (r.err <==> RunJobs(t, SouJobs(root, s, ous, filter)).err) && (!r.err ==> !t.err)
            && (!r.err ==> forall n :: CleanName(n) ==> ChildAfter(t.nodes, r.nodes, d + "/" + n, n in AcceptedOus(s, ous, filter)))
  {
    hide WellFormed, RunJobs, RmUnexpected, KeyPath, AcceptedOus;
    var d := root + "/" + s.name;
    SouStage(t, root, s, ous, filter);
    var mid, expected := RunJobs(t, SouJobs(root, s, ous, filter)), AcceptedOus(s, ous, filter);
    DirGrows(t.nodes, mid.nodes, d);
    forall j | 0 <= j < |ous| ensures ChildOf(d + "/" + ous[j].name, d) {
      MakeChild(d, ous[j].name);
    }
    CleanUpNeverFails(mid, d, expected);
    if mid.err {
      ErrCleans(mid, d, expected);
    } else {
      CleanUpExact(mid, d, expected);
      var r := RmUnexpected(mid, d, expected, false);
      forall n | CleanName(n) ensures ChildAfter(t.nodes, r.nodes, d + "/" + n, n in expected) {
        NoNewContent(t.nodes, mid.nodes, d, ous, n);
        AcceptedMade(t.nodes, mid.nodes, d, s, ous, filter, n);
      }
    }
  }

  lemma ErrCleans(t: Tree, d: string, expected: set<string>)
    requires t.err
    ensures RmUnexpected(t, d, expected, false) == t
  {
  }

  lemma AcceptedMade(n0: Nodes, n1: Nodes, d: string, s: Service, ous: seq<OrgUnit>, filter: Filter, n: string)
    requires forall q :: q in n1 && q !in n0 ==> exists j :: 0 <= j < |ous| && filter(s, ous[j]) && q == d + "/" + ous[j].name
    requires forall j :: 0 <= j < |ous| && filter(s, ous[j]) ==> d + "/" + ous[j].name in n1
    ensures n in AcceptedOus(s, ous, filter) ==> d + "/" + n in n1
    ensures n !in AcceptedOus(s, ous, filter) && d + "/" + n in n1 ==> d + "/" + n in n0
  {
    if n in AcceptedOus(s, ous, filter) {
      var j :| 0 <= j < |ous| && filter(s, ous[j]) && ous[j].name == n;
    }
    if d + "/" + n in n1 && d + "/" + n !in n0 {
      var j :| 0 <= j < |ous| && filter(s, ous[j]) && d + "/" + n == d + "/" + ous[j].name;
      SameName(d, n, ous[j].name);
    }
  }

  // All services

  /** A child of one service directory lies neither above nor in another one. */
  lemma ServicesApart(root: string, a: string, b: string, p: string, q: string)
    requires CleanName(a) && CleanName(b) && ChildOf(p, root + "/" + a) && ChildOf(q, root + "/" + b)
    ensures !Below(q, p) && (p == q ==> a == b)
  {
    ChildSplit(p, root + "/" + a);
    ChildSplit(q, root + "/" + b);
    MakeChild(root, b);
    if p == q { SameName(root, a, b); }
    if Below(q, p) {
      BelowParent(q, root + "/" + b, p);
      if Below(root + "/" + b, p) { BelowParent(root + "/" + b, root, p); }
    }
  }

  ghost predicate OutsideAll(root: string, services: seq<Service>, k: nat, q: string)
    requires k <= |services|
  {
    forall i :: 0 <= i < k ==> !ChildOf(q, root + "/" + services[i].name)
  }

  ghost predicate SameAt(n0: Nodes, n1: Nodes, q: string) {
    (q in n0 <==> q in n1) && (q in n0 ==> n1[q] == n0[q])
  }

  /** The children of the first `k` service directories are as wanted, and nothing else has
      changed. */
  ghost predicate Cleaned(
    n0: Nodes, n1: Nodes, root: string, services: seq<Service>, ous: seq<OrgUnit>, filter: Filter, k: nat)
    requires k <= |services|
  {
    forall i, n :: 0 <= i < k && CleanName(n) ==>
      ChildAfter(n0, n1, root + "/" + services[i].name + "/" + n, n in AcceptedOus(services[i], ous, filter))
  }

  ghost predicate Framed(n0: Nodes, n1: Nodes, root: string, services: seq<Service>, k: nat)
    requires k <= |services|
  {
    forall q :: OutsideAll(root, services, k, q) ==> SameAt(n0, n1, q)
  }

  lemma SameContent(n0: Nodes, n1: Nodes, root: string, services: seq<Service>, k: nat, p: string)
    requires k < |services| && DistinctServices(services) && Framed(n0, n1, root, services, k)
    requires forall i :: 0 <= i < |services| ==> CleanName(services[i].name)
    requires ChildOf(p, root + "/" + services[k].name)
    ensures SameAt(n0, n1, p) && (HasChildren(n0, p) <==> HasChildren(n1, p))
  {
    forall i | 0 <= i < k ensures !ChildOf(p, root + "/" + services[i].name) {
      if ChildOf(p, root + "/" + services[i].name) { ServicesApart(root, services[k].name, services[i].name, p, p); }
    }
    assert OutsideAll(root, services, k, p);
    forall q | Below(q, p) ensures SameAt(n0, n1, q) {
      forall i | 0 <= i < k ensures !ChildOf(q, root + "/" + services[i].name) {
        if ChildOf(q, root + "/" + services[i].name) { ServicesApart(root, services[k].name, services[i].name, p, q); }
      }
      assert OutsideAll(root, services, k, q);
    }
  }

  lemma NextService(
    n0: Nodes, n1: Nodes, n2: Nodes, root: string, services: seq<Service>, ous: seq<OrgUnit>, filter: Filter, k: nat)
    requires k < |services| && DistinctServices(services) && forall i :: 0 <= i < |services| ==> CleanName(services[i].name)
    requires Framed(n0, n1, root, services, k) && ChangesIn(n1, n2, root + "/" + services[k].name)
    ensures Framed(n0, n2, root, services, k + 1)
  {
    forall q | OutsideAll(root, services, k + 1, q) ensures SameAt(n0, n2, q) {
      assert OutsideAll(root, services, k, q);
    }
  }

  lemma NextCleaned(
    n0: Nodes, n1: Nodes, n2: Nodes, root: string, services: seq<Service>, ous: seq<OrgUnit>, filter: Filter, k: nat)
    requires k < |services| && DistinctServices(services) && forall i :: 0 <= i < |services| ==> CleanName(services[i].name)
    requires Framed(n0, n1, root, services, k) && ChangesIn(n1, n2, root + "/" + services[k].name)
    requires Cleaned(n0, n1, root, services, ous, filter, k)
    requires forall n :: CleanName(n) ==>
               ChildAfter(n1, n2, root + "/" + services[k].name + "/" + n, n in AcceptedOus(services[k], ous, filter))
    ensures Cleaned(n0, n2, root, services, ous, filter, k + 1)
  {
    hide AcceptedOus;
    forall i, n | 0 <= i < k + 1 && CleanName(n)
      ensures ChildAfter(n0, n2, root + "/" + services[i].name + "/" + n, n in AcceptedOus(services[i], ous, filter))
    {
      var p := root + "/" + services[i].name + "/" + n;
      MakeChild(root + "/" + services[i].name, n);
      if i == k {
        SameContent(n0, n1, root, services, k, p);
      } else {
        if ChildOf(p, root + "/" + services[k].name) { ServicesApart(root, services[i].name, services[k].name, p, p); }
      }
    }
  }

  lemma NothingYet(nodes: Nodes, root: string, services: seq<Service>, ous: seq<OrgUnit>, filter: Filter)
    ensures Framed(nodes, nodes, root, services, 0) && Cleaned(nodes, nodes, root, services, ous, filter, 0)
  {
  }

  lemma ServiceDirStays(n0: Nodes, n1: Nodes, root: string, services: seq<Service>, k: nat, i: nat)
    requires k <= |services| && i < |services| && Framed(n0, n1, root, services, k) && IsDir(n0, root + "/" + services[i].name)
    requires forall l :: 0 <= l < |services| ==> CleanName(services[l].name)
    ensures IsDir(n1, root + "/" + services[i].name)
  {
    var q := root + "/" + services[i].name;
    forall l | 0 <= l < k ensures !ChildOf(q, root + "/" + services[l].name) {
      MakeChild(root, services[i].name);
      if ChildOf(q, root + "/" + services[l].name) { ChildSplit(q, root + "/" + services[l].name); }
    }
    assert OutsideAll(root, services, k, q);
  }

  lemma {:induction false} ServicesStage(t: Tree, root: string, services: seq<Service>, ous: seq<OrgUnit>, filter: Filter, k: nat)
    requires WellFormed(t.nodes) && KeyPath(root) && k <= |services| && DistinctServices(services)
    requires forall i :: 0 <= i < |services| ==> CleanName(services[i].name) && IsDir(t.nodes, root + "/" + services[i].name)
    requires forall i :: 0 <= i < |ous| ==> CleanName(ous[i].name)
    ensures var r := ServiceOrgUnitDirs(t, root, services[..k], ous, filter);
            && WellFormed(r.nodes) && Framed(t.nodes, r.nodes, root, services, k) && (!r.err ==> !t.err)
            && (!r.err ==> Cleaned(t.nodes, r.nodes, root, services, ous, filter, k))
  {
    hide WellFormed, ServiceSubdirs, KeyPath, Framed, Cleaned, ChangesIn, ChildAfter, DistinctServices, AcceptedOus;
    if k == 0 {
      NothingYet(t.nodes, root, services, ous, filter);
    } else {
      var l := k - 1;
      ServicesStage(t, root, services, ous, filter, l);
      Last(services, l);
      var mid := ServiceOrgUnitDirs(t, root, services[..l], ous, filter);
      ServiceDirStays(t.nodes, mid.nodes, root, services, l, l);
      KeyChild(root, services[l].name);
      ServiceStage(mid, root, services[l], ous, filter);
      var r := ServiceSubdirs(mid, root, services[l], ous, filter);
      NextService(t.nodes, mid.nodes, r.nodes, root, services, ous, filter, l);
      if !r.err { NextCleaned(t.nodes, mid.nodes, r.nodes, root, services, ous, filter, l); }
    }
  }

  /** A script for a directory of service `i` fails. */
  ghost predicate ScriptsFail(t: Tree, root: string, services: seq<Service>, ous: seq<OrgUnit>, filter: Filter, i: nat)
    requires i < |services|
  {
    var before := ServiceOrgUnitDirs(t, root, services[..i], ous, filter);
    !before.err && RunJobs(before, SouJobs(root, services[i], ous, filter)).err
  }

  /** The step fails only where a script fails, never for what the clean-ups find. */
  lemma {:induction false} ServicesFailIff(t: Tree, root: string, services: seq<Service>, ous: seq<OrgUnit>, filter: Filter, k: nat)
    requires WellFormed(t.nodes) && KeyPath(root) && k <= |services| && DistinctServices(services) && !t.err
    requires forall i :: 0 <= i < |services| ==> CleanName(services[i].name) && IsDir(t.nodes, root + "/" + services[i].name)
    requires forall i :: 0 <= i < |ous| ==> CleanName(ous[i].name)
    ensures ServiceOrgUnitDirs(t, root, services[..k], ous, filter).err <==>
            exists i :: 0 <= i < k && ScriptsFail(t, root, services, ous, filter, i)
  {
    hide WellFormed, ServiceSubdirs, KeyPath, Framed, Cleaned, ChangesIn, ChildAfter, DistinctServices, AcceptedOus, RunJobs;
    if k > 0 {
      var l := k - 1;
      ServicesFailIff(t, root, services, ous, filter, l);
      ServicesStage(t, root, services, ous, filter, l);
      Last(services, l);
      var mid := ServiceOrgUnitDirs(t, root, services[..l], ous, filter);
      ServiceDirStays(t.nodes, mid.nodes, root, services, l, l);
      KeyChild(root, services[l].name);
      ServiceStage(mid, root, services[l], ous, filter);
      var r := ServiceSubdirs(mid, root, services[l], ous, filter);
      assert ServiceOrgUnitDirs(t, root, services[..k], ous, filter) == r;
      assert !mid.err ==> (r.err <==> ScriptsFail(t, root, services, ous, filter, l));
    }
  }

  // Directories at their own paths

  ghost predicate NewAt(n0: Nodes, n1: Nodes, jobs: seq<DirJob>) {
    AddsDirs(n0, n1) && forall q :: q in n1 && q !in n0 ==> exists i :: 0 <= i < |jobs| && q == jobs[i].path
  }

  /** The job's path is a name in a path without links. */
  ghost predicate PlainJob(nodes: Nodes, job: DirJob) {
    job.path != "" && KeyPath(job.path) && NoLinks(nodes, Parent(job.path))
  }

  lemma PlainStep(t: Tree, job: DirJob)
    requires WellFormed(t.nodes) && PlainJob(t.nodes, job)
    ensures var r := RunScript(t, job.path, job.script);
            && WellFormed(r.nodes) && AddsDirs(t.nodes, r.nodes) && (!r.err ==> !t.err)
            && (forall q :: q in r.nodes && q !in t.nodes ==> q == job.path)
            && (!r.err && !(job.path in t.nodes && t.nodes[job.path].Link?) ==> IsDir(r.nodes, job.path))
  {
    hide WellFormed, RunScript, NoLinks;
    KeyParent(job.path);
    var d := Parent(job.path);
    ChildSplit(job.path, d);
    ScriptErr(t, job.path, job.script);
    ScriptAddsDirs(t, job.path, job.script);
    if !t.err { ScriptPlain(t, d, job.path[|d| + 1..], job.script); }
  }

  ghost predicate PlainAll(nodes: Nodes, jobs: seq<DirJob>) {
    forall i :: 0 <= i < |jobs| ==> PlainJob(nodes, jobs[i])
  }

  lemma PlainPrefix(nodes: Nodes, jobs: seq<DirJob>)
    requires PlainAll(nodes, jobs) && jobs != []
    ensures PlainAll(nodes, jobs[..|jobs| - 1]) && PlainJob(nodes, jobs[|jobs| - 1])
  {
    hide PlainJob;
    var less := jobs[..|jobs| - 1];
    forall i | 0 <= i < |less| ensures PlainJob(nodes, less[i]) {
      assert less[i] == jobs[i];
    }
  }

  lemma PlainLater(n0: Nodes, n1: Nodes, job: DirJob)
    requires PlainJob(n0, job) && AddsDirs(n0, n1)
    ensures PlainJob(n1, job)
  {
    hide KeyPath;
    NoLinksStays(n0, n1, Parent(job.path));
  }

  lemma NewAtMore(n0: Nodes, n1: Nodes, n2: Nodes, jobs: seq<DirJob>)
    requires jobs != [] && NewAt(n0, n1, jobs[..|jobs| - 1]) && AddsDirs(n1, n2)
    requires forall q :: q in n2 && q !in n1 ==> q == jobs[|jobs| - 1].path
    ensures NewAt(n0, n2, jobs)
  {
    forall q | q in n2 && q !in n0 ensures exists i :: 0 <= i < |jobs| && q == jobs[i].path {
      if q in n1 {
        var i :| 0 <= i < |jobs| - 1 && q == jobs[..|jobs| - 1][i].path;
        assert q == jobs[i].path;
      } else {
        assert q == jobs[|jobs| - 1].path;
      }
    }
  }

  lemma NothingMade(nodes: Nodes)
    ensures NewAt(nodes, nodes, [])
  {
  }

  lemma NewAtAdds(n0: Nodes, n1: Nodes, jobs: seq<DirJob>)
    requires NewAt(n0, n1, jobs)
    ensures AddsDirs(n0, n1)
  {
  }

  /** Directories on such paths are made at just these paths. */
  lemma {:induction false} PlainJobs(t: Tree, jobs: seq<DirJob>)
    requires WellFormed(t.nodes) && PlainAll(t.nodes, jobs)
    ensures var r := RunJobs(t, jobs); WellFormed(r.nodes) && NewAt(t.nodes, r.nodes, jobs) && (!r.err ==> !t.err)
  {
    hide WellFormed, RunScript, NewAt, PlainJob, PlainAll, AddsDirs;
    if jobs == [] {
      NothingMade(t.nodes);
    } else {
      var n := |jobs| - 1;
      PlainPrefix(t.nodes, jobs);
      PlainJobs(t, jobs[..n]);
      var mid := RunJobs(t, jobs[..n]);
      NewAtAdds(t.nodes, mid.nodes, jobs[..n]);
      PlainLater(t.nodes, mid.nodes, jobs[n]);
      PlainStep(mid, jobs[n]);
      NewAtMore(t.nodes, mid.nodes, RunScript(mid, jobs[n].path, jobs[n].script).nodes, jobs);
    }
  }

  lemma DirAdds(n0: Nodes, n1: Nodes, p: string)
    requires AddsDirs(n0, n1)
    ensures (IsDir(n0, p) ==> IsDir(n1, p)) && (p in n1 && n1[p].Link? ==> p in n0 && n0[p].Link?)
  {
  }

  /** Without an error they are all there, except where a link was. */
  lemma {:induction false} PlainJobsMade(t: Tree, jobs: seq<DirJob>, i: nat)
    requires WellFormed(t.nodes) && PlainAll(t.nodes, jobs) && i < |jobs|
    requires !RunJobs(t, jobs).err && !(jobs[i].path in t.nodes && t.nodes[jobs[i].path].Link?)
    ensures IsDir(RunJobs(t, jobs).nodes, jobs[i].path)
  {
    hide WellFormed, RunScript, NewAt, PlainJob, PlainAll, AddsDirs;
    var n := |jobs| - 1;
    PlainPrefix(t.nodes, jobs);
    PlainJobs(t, jobs[..n]);
    var mid := RunJobs(t, jobs[..n]);
    NewAtAdds(t.nodes, mid.nodes, jobs[..n]);
    PlainLater(t.nodes, mid.nodes, jobs[n]);
    PlainStep(mid, jobs[n]);
    if i < n {
      PlainJobsMade(t, jobs[..n], i);
      DirAdds(mid.nodes, RunJobs(t, jobs).nodes, jobs[i].path);
    } else {
      DirAdds(t.nodes, mid.nodes, jobs[n].path);
    }
  }

  // The service tree

  /** All service directories are reached through no link. */
  ghost predicate PlainServices(nodes: Nodes, root: string, services: seq<Service>) {
    forall i :: 0 <= i < |services| ==> NoLinks(nodes, root + "/" + services[i].name)
  }

  lemma RootPlain(nodes: Nodes, root: string, n: string)
    requires KeyPath(root) && CleanName(n) && NoLinks(nodes, root + "/" + n)
    ensures NoLinks(nodes, root) && KeyPath(root + "/" + n) && root + "/" + n != "" && Parent(root + "/" + n) == root
  {
    MakeChild(root, n);
    KeyChild(root, n);
    forall q | q in nodes && (q == root || Below(root, q)) ensures !nodes[q].Link? {
      if q != root { BelowTransitive(root + "/" + n, root, q); }
    }
  }

  lemma {:induction false} ServicesPlain(nodes: Nodes, root: string, services: seq<Service>)
    requires KeyPath(root) && CleanServices(services) && PlainServices(nodes, root, services)
    ensures var jobs := ServiceJobs(root, services);
            |jobs| == |services| && PlainAll(nodes, jobs) && forall i :: 0 <= i < |jobs| ==> jobs[i].path == root + "/" + services[i].name
  {
    hide NoLinks, KeyPath, ServiceScript;
    if services != [] {
      var n := |services| - 1;
      ServicesPlain(nodes, root, services[..n]);
      RootPlain(nodes, root, services[n].name);
    }
  }

  lemma LinkFree(nodes: Nodes, p: string)
    requires NoLinks(nodes, p)
    ensures !(p in nodes && nodes[p].Link?)
  {
  }

  lemma PlainServicesStay(n0: Nodes, n1: Nodes, root: string, services: seq<Service>)
    requires PlainServices(n0, root, services) && AddsDirs(n0, n1)
    ensures PlainServices(n1, root, services)
  {
    hide NoLinks;
    forall i | 0 <= i < |services| ensures NoLinks(n1, root + "/" + services[i].name) {
      NoLinksStays(n0, n1, root + "/" + services[i].name);
    }
  }

  /** Nothing in the directory of a service, or below, is touched before it is processed. */
  lemma ServiceDirsStage(t: Tree, root: string, services: seq<Service>)
    requires WellFormed(t.nodes) && KeyPath(root) && CleanServices(services) && PlainServices(t.nodes, root, services)
    ensures var r := RunJobs(t, ServiceJobs(root, services));
            && WellFormed(r.nodes) && AddsDirs(t.nodes, r.nodes) && (!r.err ==> !t.err)
            && (forall q :: q in r.nodes && q !in t.nodes ==> exists i :: 0 <= i < |services| && q == root + "/" + services[i].name)
            && (!r.err ==> forall i :: 0 <= i < |services| ==> IsDir(r.nodes, root + "/" + services[i].name))
  {
    hide WellFormed, NoLinks, KeyPath, RunJobs, PlainAll;
    var jobs := ServiceJobs(root, services);
    ServicesPlain(t.nodes, root, services);
    PlainJobs(t, jobs);
    var r := RunJobs(t, jobs);
    if !r.err {
      forall i | 0 <= i < |services| ensures IsDir(r.nodes, root + "/" + services[i].name) {
        LinkFree(t.nodes, root + "/" + services[i].name);
        PlainJobsMade(t, jobs, i);
      }
    }
  }

  /** The new directories are the root and the services' own ones. */
  ghost predicate OnlyTops(n0: Nodes, n1: Nodes, root: string, services: seq<Service>) {
    && AddsDirs(n0, n1)
    && forall q :: q in n1 && q !in n0 ==> q == root || exists i :: 0 <= i < |services| && q == root + "/" + services[i].name
  }

  lemma TopsAway(n0: Nodes, n1: Nodes, root: string, services: seq<Service>, a: string, p: string)
    requires OnlyTops(n0, n1, root, services) && CleanServices(services) && CleanName(a) && ChildOf(p, root + "/" + a)
    ensures SameAt(n0, n1, p) && (HasChildren(n0, p) <==> HasChildren(n1, p))
  {
    ChildSplit(p, root + "/" + a);
    forall q | q in n1 && q !in n0 ensures q != p && !Below(q, p) {
      if q != root {
        var i :| 0 <= i < |services| && q == root + "/" + services[i].name;
        TopAway(root, services[i].name, a, p);
      }
    }
  }

  lemma TopAway(root: string, b: string, a: string, p: string)
    requires CleanName(a) && CleanName(b) && ChildOf(p, root + "/" + a)
    ensures root + "/" + b != p && !Below(root + "/" + b, p)
  {
    ChildSplit(p, root + "/" + a);
    MakeChild(root, b);
    assert Below(p, root);
    if Below(root + "/" + b, p) { BelowParent(root + "/" + b, root, p); }
  }

  lemma TopsMade(n0: Nodes, n1: Nodes, n2: Nodes, root: string, services: seq<Service>)
    requires AddsDirs(n0, n1) && AddsDirs(n1, n2) && forall q :: q in n1 && q !in n0 ==> q == root
    requires forall q :: q in n2 && q !in n1 ==> exists i :: 0 <= i < |services| && q == root + "/" + services[i].name
    ensures OnlyTops(n0, n2, root, services)
  {
  }

  /** The service tree was made: what is left in the service directories. */
  ghost predicate ServicesCleaned(n0: Nodes, n1: Nodes, root: string, services: seq<Service>, ous: seq<OrgUnit>, filter: Filter) {
    Cleaned(n0, n1, root, services, ous, filter, |services|)
  }

  lemma CleanedFrom(n0: Nodes, n1: Nodes, n2: Nodes, root: string, services: seq<Service>, ous: seq<OrgUnit>, filter: Filter)
    requires OnlyTops(n0, n1, root, services) && CleanServices(services)
    requires ServicesCleaned(n1, n2, root, services, ous, filter)
    ensures ServicesCleaned(n0, n2, root, services, ous, filter)
  {
    hide AcceptedOus, OnlyTops;
    forall i, n | 0 <= i < |services| && CleanName(n)
      ensures ChildAfter(n0, n2, root + "/" + services[i].name + "/" + n, n in AcceptedOus(services[i], ous, filter))
    {
      var p := root + "/" + services[i].name + "/" + n;
      MakeChild(root + "/" + services[i].name, n);
      TopsAway(n0, n1, root, services, services[i].name, p);
    }
  }

  lemma ServicePartCleans(t: Tree, cfg: Config, services: seq<Service>, ous: seq<OrgUnit>, filter: Filter)
    requires WellFormed(t.nodes) && cfg.Valid() && CleanOrg(services, ous) && DistinctServices(services)
    requires services != [] && PlainServices(t.nodes, cfg.ServiceRoot(), services)
    ensures var r := ServicePart(t, cfg, services, ous, filter);
            !r.err ==> ServicesCleaned(t.nodes, r.nodes, cfg.ServiceRoot(), services, ous, filter)
  {
    hide WellFormed, RunScript, RunJobs, ServiceOrgUnitDirs, NoLinks, KeyPath, AddsDirs, Cleaned, DistinctServices, Framed, OnlyTops;
    var root := cfg.ServiceRoot();
    AbsIsKey(cfg.rootdir);
    KeyChild(cfg.rootdir, cfg.serviceDir);
    RootPlain(t.nodes, root, services[0].name);
    RootPlain(t.nodes, cfg.rootdir, cfg.serviceDir);
    PlainStep(t, DirJob(root, ToplevelSh));
    var top := RunScript(t, root, ToplevelSh);
    PlainServicesStay(t.nodes, top.nodes, root, services);
    ServiceDirsStage(top, root, services);
    var dirs := RunJobs(top, ServiceJobs(root, services));
    TopsMade(t.nodes, top.nodes, dirs.nodes, root, services);
    if dirs.err {
      ErrServices(dirs, root, services, ous, filter);
    } else {
      assert services[..|services|] == services;
      ServicesStage(dirs, root, services, ous, filter, |services|);
      var r := ServiceOrgUnitDirs(dirs, root, services, ous, filter);
      if !r.err { CleanedFrom(t.nodes, dirs.nodes, r.nodes, root, services, ous, filter); }
    }
  }

  // The rest of the run

  /** The children of `d` are the same. */
  ghost predicate SameIn(n0: Nodes, n1: Nodes, d: string) {
    forall q :: ChildOf(q, d) ==> SameAt(n0, n1, q)
  }

  /** A script makes at most a child of the directory that the path's parent leads to. */
  lemma ScriptStaysOut(t: Tree, job: DirJob, d: string)
    requires WellFormed(t.nodes) && ChildOf(job.path, Parent(job.path)) && Resolve(t.nodes, Parent(job.path)) != Some(d)
    ensures SameIn(t.nodes, RunScript(t, job.path, job.script).nodes, d)
  {
    hide Resolve, WellFormed, AfterScript, Inherit, AclAt, ChildOf, Parent, CleanName;
    var dir := Parent(job.path);
    ChildSplit(job.path, dir);
    var n := job.path[|dir| + 1..];
    var r := RunScript(t, job.path, job.script);
    if r.nodes != t.nodes {
      var e := Resolve(t.nodes, dir).value;
      PathTail(job.path, dir, e);
      assert r.nodes == t.nodes[e + "/" + n := Dir];
      if ChildOf(e + "/" + n, d) { OneParent(e + "/" + n, d, e); }
    }
  }

  lemma PathTail(p: string, d: string, e: string)
    requires ChildOf(p, d)
    ensures Below(p, d) && e + p[|d|..] == e + "/" + p[|d| + 1..] && ChildOf(e + "/" + p[|d| + 1..], e)
  {
    ChildSplit(p, d);
    var n := p[|d| + 1..];
    assert p[|d|..] == "/" + n;
    assert e + ("/" + n) == e + "/" + n;
    MakeChild(e, n);
  }

  lemma OneParent(p: string, a: string, b: string)
    requires ChildOf(p, a) && ChildOf(p, b)
    ensures a == b
  {
    ChildSplit(p, a);
    ChildSplit(p, b);
  }

  lemma {:induction false} JobsStayOut(t: Tree, jobs: seq<DirJob>, d: string)
    requires WellFormed(t.nodes) && CleanJobs(jobs)
    requires forall i :: 0 <= i < |jobs| ==> Resolve(RunJobs(t, jobs).nodes, Parent(jobs[i].path)) != Some(d)
    ensures SameIn(t.nodes, RunJobs(t, jobs).nodes, d)
  {
    hide Resolve, WellFormed, RunScript;
    if jobs != [] {
      var n := |jobs| - 1;
      var mid, r := RunJobs(t, jobs[..n]), RunJobs(t, jobs);
      JobsAddDirs(t, jobs[..n]);
      ScriptAddsDirs(mid, jobs[n].path, jobs[n].script);
      forall i | 0 <= i < |jobs| ensures Resolve(mid.nodes, Parent(jobs[i].path)) != Some(d) {
        if Resolve(mid.nodes, Parent(jobs[i].path)).Some? { ResolveGrows(mid.nodes, r.nodes, Parent(jobs[i].path)); }
      }
      assert forall i :: 0 <= i < n ==> jobs[..n][i] == jobs[i];
      JobsStayOut(t, jobs[..n], d);
      ScriptStaysOut(mid, jobs[n], d);
    }
  }

  lemma LinksStayOut(n0: Nodes, n1: Nodes, ds: seq<string>, d: string)
    requires NewIn(n0, n1, ds) && NewIn(n1, n0, ds) && forall i :: 0 <= i < |ds| ==> ds[i] != d
    ensures SameIn(n0, n1, d)
  {
    forall q, i | ChildOf(q, d) && 0 <= i < |ds| ensures !ChildOf(q, ds[i]) {
      if ChildOf(q, ds[i]) { OneParent(q, d, ds[i]); }
    }
  }

  ghost predicate ParentsIn(jobs: seq<DirJob>, dirs: set<string>) {
    forall i :: 0 <= i < |jobs| ==> Parent(jobs[i].path) in dirs
  }

  lemma {:induction false} OrgUnitParents(root: string, ous: seq<OrgUnit>)
    requires forall i :: 0 <= i < |ous| ==> CleanName(ous[i].name)
    ensures ParentsIn(OrgUnitJobs(root, ous), if ous == [] then {} else {root})
  {
    if ous != [] {
      OrgUnitParents(root, ous[..|ous| - 1]);
      MakeChild(root, ous[|ous| - 1].name);
    }
  }

  lemma {:induction false} OuSubdirParents(root: string, ou: OrgUnit, subdirs: seq<DirWithPolicy>)
    requires forall i :: 0 <= i < |subdirs| ==> CleanName(subdirs[i].name)
    ensures ParentsIn(OuSubdirJobs(root, ou, subdirs), {root + "/" + ou.name})
  {
    hide SubdirScript;
    if subdirs != [] {
      OuSubdirParents(root, ou, subdirs[..|subdirs| - 1]);
      MakeChild(root + "/" + ou.name, subdirs[|subdirs| - 1].name);
    }
  }

  ghost function OuPaths(root: string, ous: seq<OrgUnit>): set<string> {
    set i | 0 <= i < |ous| :: root + "/" + ous[i].name
  }

  lemma ParentsConcat(a: seq<DirJob>, b: seq<DirJob>, root: string, ous: seq<OrgUnit>)
    requires ous != [] && ParentsIn(a, OuPaths(root, ous[..|ous| - 1])) && ParentsIn(b, {root + "/" + ous[|ous| - 1].name})
    ensures ParentsIn(a + b, OuPaths(root, ous))
  {
    var n := |ous| - 1;
    forall d | d in OuPaths(root, ous[..n]) ensures d in OuPaths(root, ous) {
      var i :| 0 <= i < n && d == root + "/" + ous[..n][i].name;
      assert d == root + "/" + ous[i].name;
    }
    assert root + "/" + ous[n].name in OuPaths(root, ous);
  }

  lemma {:induction false} SubdirParents(root: string, ous: seq<OrgUnit>)
    requires forall i, j :: 0 <= i < |ous| && 0 <= j < |ous[i].subdirs| ==> CleanName(ous[i].subdirs[j].name)
    ensures ParentsIn(SubdirJobs(root, ous), OuPaths(root, ous))
  {
    hide OuPaths;
    if ous != [] {
      var n := |ous| - 1;
      SubdirParents(root, ous[..n]);
      OuSubdirParents(root, ous[n], ous[n].subdirs);
      ParentsConcat(SubdirJobs(root, ous[..n]), OuSubdirJobs(root, ous[n], ous[n].subdirs), root, ous);
    }
  }

  /** Neither the org unit tree's root nor a directory of an org unit is the directory `d`. */
  ghost predicate LeadsAway(made: Nodes, cfg: Config, ous: seq<OrgUnit>, ds: seq<string>, d: string) {
    && (ous != [] ==> Resolve(made, cfg.OrgUnitRoot()) != Some(d))
    && forall i :: 0 <= i < |ds| ==> ds[i] != d
  }

  /** The org unit directories are made outside `d`. */
  lemma OuDirsStayOut(t: Tree, cfg: Config, services: seq<Service>, ous: seq<OrgUnit>, filter: Filter, ds: seq<string>, d: string)
    requires WellFormed(t.nodes) && cfg.Valid() && CleanOrg(services, ous) && ChildOf(d, cfg.ServiceRoot()) && NoLinks(t.nodes, d)
    requires LeadsAway(AfterOuDirs(t, cfg, services, ous, filter).nodes, cfg, ous, ds, d)
    ensures SameIn(ServicePart(t, cfg, services, ous, filter).nodes, AfterOuDirs(t, cfg, services, ous, filter).nodes, d)
  {
    hide WellFormed, Resolve, RunScript, RunJobs, ServicePart, NoLinks, KeyPath;
    var srv, root := ServicePart(t, cfg, services, ous, filter), cfg.OrgUnitRoot();
    ServicePartNoNewLinks(t, cfg, services, ous, filter);
    var top := RunScript(srv, root, ToplevelSh);
    MakeChild(cfg.rootdir, cfg.orgUnitDir);
    ScriptAddsDirs(srv, root, ToplevelSh);
    RootElsewhere(srv.nodes, cfg, d) by { NoLinksStays(t.nodes, srv.nodes, d); }
    ScriptStaysOut(srv, DirJob(root, ToplevelSh), d);
    OrgUnitJobsClean(root, ous);
    OrgUnitParents(root, ous);
    JobsStayOut(top, OrgUnitJobs(root, ous), d);
  }

  lemma RootElsewhere(nodes: Nodes, cfg: Config, d: string)
    requires WellFormed(nodes) && cfg.Valid() && ChildOf(d, cfg.ServiceRoot()) && NoLinks(nodes, d)
    ensures Resolve(nodes, cfg.rootdir) != Some(d)
  {
    hide WellFormed, Resolve, NoLinks;
    AbsIsKey(cfg.rootdir);
    KeyChild(cfg.rootdir, cfg.serviceDir);
    ChildSplit(d, cfg.ServiceRoot());
    RootPlain(nodes, cfg.ServiceRoot(), d[|cfg.ServiceRoot()| + 1..]);
    RootPlain(nodes, cfg.rootdir, cfg.serviceDir);
    ResolvePlain(nodes, cfg.rootdir);
  }

  /** So are their additional directories. */
  lemma SubdirsStayOut(
    t: Tree, cfg: Config, services: seq<Service>, ous: seq<OrgUnit>, filter: Filter, ds: seq<string>, base: Nodes, d: string)
    requires LinkRun(t, cfg, services, ous, filter, ds, base)
    requires LeadsAway(AfterOuDirs(t, cfg, services, ous, filter).nodes, cfg, ous, ds, d)
    ensures SameIn(AfterLinks(t, cfg, services, ous, filter).nodes, AfterSubdirs(t, cfg, services, ous, filter).nodes, d)
  {
    hide WellFormed, Resolve, Applied, AfterLinks, AfterOuDirs, RunJobs, SubdirJobs, NewIn, OwnersLinked, ParentsIn, Grows, AddsDirs, IsDestSymlink;
    RunLinks(t, cfg, services, ous, filter, ds, base);
    LaterStages(t, cfg, services, ous, filter);
    var linked, org, r :=
      AfterLinks(t, cfg, services, ous, filter), AfterSubdirs(t, cfg, services, ous, filter), Applied(t, cfg, services, ous, filter);
    var jobs := SubdirJobs(cfg.OrgUnitRoot(), ous);
    SubdirJobsClean(cfg.OrgUnitRoot(), ous);
    SubdirParents(cfg.OrgUnitRoot(), ous);
    AgreesThen(base, linked.nodes, org.nodes, r.nodes, ds);
    forall i | 0 <= i < |jobs| ensures Resolve(org.nodes, Parent(jobs[i].path)) != Some(d) {
      ParentWalk(base, org.nodes, cfg.OrgUnitRoot(), ous, ds, jobs, i);
    }
    JobsStayOut(linked, jobs, d);
  }

  lemma AgreesThen(base: Nodes, linked: Nodes, org: Nodes, r: Nodes, ds: seq<string>)
    requires KeepsBut(base, linked, ds, |ds|) && AddsDirs(linked, org) && Grows(org, r) && NotReplaced(base, linked, r)
    ensures Agrees(base, org)
  {
  }

  lemma ParentWalk(base: Nodes, nodes: Nodes, root: string, ous: seq<OrgUnit>, ds: seq<string>, jobs: seq<DirJob>, i: nat)
    requires Leads(base, root, ous, ds) && Agrees(base, nodes) && ParentsIn(jobs, OuPaths(root, ous)) && i < |jobs|
    ensures var r := Resolve(nodes, Parent(jobs[i].path)); r.Some? ==> exists k :: 0 <= k < |ds| && r == Some(ds[k])
  {
    hide Resolve, Agrees;
    assert Parent(jobs[i].path) in OuPaths(root, ous);
    var k :| 0 <= k < |ous| && root + "/" + ous[k].name == Parent(jobs[i].path);
    if Resolve(nodes, Parent(jobs[i].path)).Some? { ResolveMeets(base, nodes, Parent(jobs[i].path)); }
  }

  /** An explicit link of the configuration is at `p`. */
  ghost predicate ExplicitAt(nodes: Nodes, cfg: Config, p: string) {
    exists l :: 0 <= l < |cfg.symlinks| && p in nodes && nodes[p] == Link(cfg.symlinks[l].target)
                && Locate(nodes, cfg.rootdir + "/" + cfg.symlinks[l].path) == Some(p)
  }

  /** After the service part, at most explicit links are added to the directory of a service. */
  ghost predicate OnlyExplicit(n0: Nodes, n1: Nodes, cfg: Config, d: string) {
    forall q :: ChildOf(q, d) ==> if q in n0 then q in n1 && n1[q] == n0[q] else q in n1 ==> ExplicitAt(n1, cfg, q)
  }

  lemma RestStaysOut(
    t: Tree, cfg: Config, services: seq<Service>, ous: seq<OrgUnit>, filter: Filter, ds: seq<string>, base: Nodes, d: string)
    requires LinkRun(t, cfg, services, ous, filter, ds, base) && ChildOf(d, cfg.ServiceRoot()) && NoLinks(t.nodes, d)
    requires LeadsAway(AfterOuDirs(t, cfg, services, ous, filter).nodes, cfg, ous, ds, d)
    ensures OnlyExplicit(ServicePart(t, cfg, services, ous, filter).nodes, Applied(t, cfg, services, ous, filter).nodes, cfg, d)
  {
    hide WellFormed, Resolve, Applied, AfterLinks, AfterOuDirs, AfterSubdirs, NewIn, OwnersLinked, AddsDirs, IsDestSymlink, ServicePart,
         RunLinkJobs, NoLinks, ExplicitJobs, Locate, KeepsBut;
    OuDirsStayOut(t, cfg, services, ous, filter, ds, d);
    RunLinks(t, cfg, services, ous, filter, ds, base);
    var made, linked := AfterOuDirs(t, cfg, services, ous, filter), AfterLinks(t, cfg, services, ous, filter);
    LinksStayOut(made.nodes, linked.nodes, ds, d);
    SubdirsStayOut(t, cfg, services, ous, filter, ds, base, d);
    LaterStages(t, cfg, services, ous, filter);
    AppliedStages(t, cfg, services, ous, filter);
    var org, r := AfterSubdirs(t, cfg, services, ous, filter), Applied(t, cfg, services, ous, filter);
    forall q | ChildOf(q, d) && q in r.nodes && q !in org.nodes ensures ExplicitAt(r.nodes, cfg, q) {
      ExplicitNew(org, cfg, q);
    }
  }

  lemma ExplicitNew(t: Tree, cfg: Config, q: string)
    requires WellFormed(t.nodes) && cfg.Valid()
    requires var r := RunLinkJobs(t, ExplicitJobs(cfg.rootdir, cfg.symlinks)); q in r.nodes && q !in t.nodes
    ensures ExplicitAt(RunLinkJobs(t, ExplicitJobs(cfg.rootdir, cfg.symlinks)).nodes, cfg, q)
  {
    hide WellFormed, RunLinkJobs, ExplicitJobs, Locate;
    var jobs := ExplicitJobs(cfg.rootdir, cfg.symlinks);
    AbsIsKey(cfg.rootdir);
    ExplicitClean(cfg.rootdir, cfg.symlinks);
    LinkJobsAdd(t, jobs, q);
    var r := RunLinkJobs(t, jobs).nodes;
    var l :| 0 <= l < |jobs| && Locate(r, jobs[l].path) == Some(q) && r[q] == Link(jobs[l].dest);
  }

  // The whole run

  /** What a run leaves at a path directly in the directory of a service: an accepted org unit
      has its directory, or what was there; an empty directory without accepted org unit is
      gone; everything else stays. Only explicit links may be added. */
  ghost predicate AfterRun(n0: Nodes, r: Nodes, cfg: Config, p: string, accepted: bool) {
    && (accepted ==> p in r && r[p] == if p in n0 then n0[p] else Dir)
    && (!accepted && p in n0 && (n0[p] != Dir || HasChildren(n0, p)) ==> p in r && r[p] == n0[p])
    && (!accepted && (p !in n0 || (n0[p] == Dir && !HasChildren(n0, p))) ==> p !in r || ExplicitAt(r, cfg, p))
  }

  ghost predicate ServicesAfterRun(n0: Nodes, r: Nodes, cfg: Config, services: seq<Service>, ous: seq<OrgUnit>, filter: Filter) {
    forall i, n :: 0 <= i < |services| && CleanName(n) ==>
      AfterRun(n0, r, cfg, cfg.ServiceRoot() + "/" + services[i].name + "/" + n, n in AcceptedOus(services[i], ous, filter))
  }

  /** No directory of an org unit is the directory of a service. */
  ghost predicate TreesApart(made: Nodes, cfg: Config, services: seq<Service>, ous: seq<OrgUnit>, ds: seq<string>) {
    forall i :: 0 <= i < |services| ==> LeadsAway(made, cfg, ous, ds, cfg.ServiceRoot() + "/" + services[i].name)
  }

  lemma ChildEnds(n0: Nodes, n1: Nodes, n2: Nodes, cfg: Config, d: string, n: string, accepted: bool)
    requires CleanName(n) && ChildAfter(n0, n1, d + "/" + n, accepted) && OnlyExplicit(n1, n2, cfg, d)
    ensures AfterRun(n0, n2, cfg, d + "/" + n, accepted)
  {
    hide ExplicitAt;
    MakeChild(d, n);
  }

  /** From any tree in which the service directories are reached through no link, and where no
      org unit's directory leads into one of them, a run without error cleans them up. */
  lemma AppliedCleansServices(
    t: Tree, cfg: Config, services: seq<Service>, ous: seq<OrgUnit>, filter: Filter, ds: seq<string>, base: Nodes)
    requires LinkRun(t, cfg, services, ous, filter, ds, base) && DistinctServices(services)
    requires PlainServices(t.nodes, cfg.ServiceRoot(), services)
    requires TreesApart(AfterOuDirs(t, cfg, services, ous, filter).nodes, cfg, services, ous, ds)
    ensures ServicesAfterRun(t.nodes, Applied(t, cfg, services, ous, filter).nodes, cfg, services, ous, filter)
  {
    hide WellFormed, Applied, ServicePart, AfterOuDirs, AfterLinks, LeadsAway, AcceptedOus, ChildAfter, AfterRun, OnlyExplicit, NoLinks,
         DistinctServices, Leads, NotReplaced;
    var root, srv, r := cfg.ServiceRoot(), ServicePart(t, cfg, services, ous, filter).nodes, Applied(t, cfg, services, ous, filter).nodes;
    RunStages(t, cfg, services, ous, filter);
    forall i, n | 0 <= i < |services| && CleanName(n)
      ensures AfterRun(t.nodes, r, cfg, root + "/" + services[i].name + "/" + n, n in AcceptedOus(services[i], ous, filter))
    {
      ServicePartCleans(t, cfg, services, ous, filter);
      MakeChild(root, services[i].name);
      RestStaysOut(t, cfg, services, ous, filter, ds, base, root + "/" + services[i].name);
      ChildEnds(t.nodes, srv, r, cfg, root + "/" + services[i].name, n, n in AcceptedOus(services[i], ous, filter));
    }
  }

  /** In particular where org unit directories are reached through no link either. */
  lemma PlainRunCleansServices(t: Tree, cfg: Config, services: seq<Service>, ous: seq<OrgUnit>, filter: Filter)
    requires WellFormed(t.nodes) && cfg.Valid() && CleanOrg(services, ous) && DistinctServices(services)
    requires PlainServices(t.nodes, cfg.ServiceRoot(), services)
    requires forall i :: 0 <= i < |ous| ==> NoLinks(t.nodes, cfg.OrgUnitRoot() + "/" + ous[i].name)
    requires !Applied(t, cfg, services, ous, filter).err
    ensures ServicesAfterRun(t.nodes, Applied(t, cfg, services, ous, filter).nodes, cfg, services, ous, filter)
  {
    hide WellFormed, Applied, AfterOuDirs, AfterLinks, NoLinks, DistinctServices, LinkRun, LeadsAway, Independent, Reaches, Stripped, PlainServices;
    NoLinksRun(t, cfg, services, ous, filter);
    var ds := OwnDirs(cfg.OrgUnitRoot(), ous);
    IndependentRun(t, cfg, services, ous, filter, ds);
    var base := Stripped(AfterOuDirs(t, cfg, services, ous, filter).nodes, ds);
    forall i | 0 <= i < |services|
      ensures LeadsAway(AfterOuDirs(t, cfg, services, ous, filter).nodes, cfg, ous, ds, cfg.ServiceRoot() + "/" + services[i].name)
    {
      OwnDirsLeadAway(t, cfg, services, ous, filter, services[i].name);
    }
    AppliedCleansServices(t, cfg, services, ous, filter, ds, base);
  }

  lemma OwnDirsLeadAway(t: Tree, cfg: Config, services: seq<Service>, ous: seq<OrgUnit>, filter: Filter, s: string)
    requires WellFormed(t.nodes) && cfg.Valid() && CleanOrg(services, ous) && CleanName(s)
    requires forall i :: 0 <= i < |ous| ==> NoLinks(t.nodes, cfg.OrgUnitRoot() + "/" + ous[i].name)
    ensures LeadsAway(AfterOuDirs(t, cfg, services, ous, filter).nodes, cfg, ous, OwnDirs(cfg.OrgUnitRoot(), ous), cfg.ServiceRoot() + "/" + s)
  {
    hide WellFormed, Resolve, AfterOuDirs, NoLinks, Config.ServiceRoot, Config.OrgUnitRoot, OwnDirs;
    if ous != [] { OuRootPlain(t, cfg, services, ous, filter, s); }
    RootsDiffer(cfg, s);
    OtherRoot(cfg.OrgUnitRoot(), ous, cfg.ServiceRoot(), s);
  }

  lemma OtherRoot(root: string, ous: seq<OrgUnit>, other: string, s: string)
    requires root != other && CleanName(s) && forall i :: 0 <= i < |ous| ==> CleanName(ous[i].name)
    ensures forall i :: 0 <= i < |ous| ==> OwnDirs(root, ous)[i] != other + "/" + s
  {
    forall i | 0 <= i < |ous| ensures root + "/" + ous[i].name != other + "/" + s {
      MakeChild(root, ous[i].name);
      MakeChild(other, s);
    }
  }

  lemma OuRootPlain(t: Tree, cfg: Config, services: seq<Service>, ous: seq<OrgUnit>, filter: Filter, s: string)
    requires WellFormed(t.nodes) && cfg.Valid() && CleanOrg(services, ous) && CleanName(s) && ous != []
    requires NoLinks(t.nodes, cfg.OrgUnitRoot() + "/" + ous[0].name)
    ensures Resolve(AfterOuDirs(t, cfg, services, ous, filter).nodes, cfg.OrgUnitRoot()) != Some(cfg.ServiceRoot() + "/" + s)
  {
    hide WellFormed, Resolve, AfterOuDirs, NoLinks;
    AbsIsKey(cfg.rootdir);
    KeyChild(cfg.rootdir, cfg.orgUnitDir);
    RootsDiffer(cfg, s);
    RootPlain(t.nodes, cfg.OrgUnitRoot(), ous[0].name);
    NoLinksMade(t, cfg, services, ous, filter, cfg.OrgUnitRoot());
    AfterOuDirsWellFormed(t, cfg, services, ous, filter);
    ResolvePlain(AfterOuDirs(t, cfg, services, ous, filter).nodes, cfg.OrgUnitRoot());
  }

  lemma RootsDiffer(cfg: Config, s: string)
    requires cfg.Valid() && CleanName(s)
    ensures cfg.OrgUnitRoot() != cfg.ServiceRoot() && cfg.OrgUnitRoot() != cfg.ServiceRoot() + "/" + s
  {
    SameName(cfg.rootdir, cfg.serviceDir, cfg.orgUnitDir);
    MakeChild(cfg.rootdir, cfg.orgUnitDir);
    MakeChild(cfg.ServiceRoot(), s);
  }

  lemma NoLinksMade(t: Tree, cfg: Config, services: seq<Service>, ous: seq<OrgUnit>, filter: Filter, p: string)
    requires WellFormed(t.nodes) && cfg.Valid() && CleanOrg(services, ous) && NoLinks(t.nodes, p)
    ensures NoLinks(AfterOuDirs(t, cfg, services, ous, filter).nodes, p)
  {
    hide WellFormed, NoLinks, ServicePart, RunScript, RunJobs;
    NoLinksBeforeOus(t, cfg, services, ous, filter, p);
    var top := RunScript(ServicePart(t, cfg, services, ous, filter), cfg.OrgUnitRoot(), ToplevelSh);
    OrgUnitJobsClean(cfg.OrgUnitRoot(), ous);
    JobsAddDirs(top, OrgUnitJobs(cfg.OrgUnitRoot(), ous));
    NoLinksStays(top.nodes, RunJobs(top, OrgUnitJobs(cfg.OrgUnitRoot(), ous)).nodes, p);
  }
}
