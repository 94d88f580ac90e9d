/** The ACLs that an apply run leaves, from any tree in which the directories that it manages are
    reached through no link. */
module AppliedAcls {
  import opened Strings
  import opened Paths
  import opened Sharing
  import opened FileSystem
  import opened PosixAcl
  import opened DirScripts
  import opened Organization
  import opened FsApply
  import opened ApplySteps
  import opened FsckAcl
  import opened ScriptsMeetCheck
  import opened FsCheck
  import opened ApplySymlinks
  import opened ApplyLinks
  import opened ServiceCleanUp

  // One stage

  /** The ACL that a script finds: that of the directory if it was there, else what a new
      directory inherits. */
  ghost function StartAcl(t: Tree, acls: map<string, DirAcl>, p: string): DirAcl {
    if p in t.nodes then AclAt(t.acls, p) else Inherit(AclAt(acls, Parent(p)), RWX, R_X, R_X)
  }

  ghost predicate SetBy(t: Tree, r: Tree, job: DirJob) {
    IsDir(r.nodes, job.path) && AclAt(r.acls, job.path) == AfterScript(job.script, StartAcl(t, r.acls, job.path))
  }

  lemma StepAcl(t: Tree, job: DirJob)
    requires WellFormed(t.nodes) && PlainJob(t.nodes, job) && !(job.path in t.nodes && t.nodes[job.path].Link?)
    requires !RunScript(t, job.path, job.script).err
    ensures RunScript(t, job.path, job.script).acls == t.acls[job.path := AfterScript(job.script, StartAcl(t, t.acls, job.path))]
  {
    hide WellFormed, RunScript, NoLinks, AfterScript, Inherit;
    KeyParent(job.path);
    var d := Parent(job.path);
    ChildSplit(job.path, d);
    ScriptErr(t, job.path, job.script);
    ScriptPlain(t, d, job.path[|d| + 1..], job.script);
  }

  /** Distinct paths, and none is the parent of an earlier one. */
  ghost predicate JobsApart(jobs: seq<DirJob>) {
    forall i, j :: 0 <= i <= j < |jobs| ==> (i < j ==> jobs[i].path != jobs[j].path) && Parent(jobs[i].path) != jobs[j].path
  }

  ghost predicate NoJobAt(jobs: seq<DirJob>, q: string) {
    forall i :: 0 <= i < |jobs| ==> jobs[i].path != q
  }

  ghost predicate AclsElsewhere(a0: map<string, DirAcl>, a1: map<string, DirAcl>, jobs: seq<DirJob>) {
    forall q :: NoJobAt(jobs, q) ==> AclAt(a1, q) == AclAt(a0, q)
  }

  /** What is at the job's path now was there at the start, and it is no link. */
  ghost predicate StillAt(n0: Nodes, n1: Nodes, job: DirJob) {
    (job.path in n1 <==> job.path in n0) && !(job.path in n1 && n1[job.path].Link?)
  }

  ghost predicate AllStillAt(n0: Nodes, n1: Nodes, jobs: seq<DirJob>) {
    forall i :: 0 <= i < |jobs| ==> StillAt(n0, n1, jobs[i])
  }

  /** The jobs are done: their directories have the ACLs that the scripts make, all others
      those of the start. */
  ghost predicate Progress(t0: Tree, t: Tree, done: seq<DirJob>) {
    WellFormed(t.nodes) && !t.err && AclsElsewhere(t0.acls, t.acls, done) && forall i :: 0 <= i < |done| ==> SetBy(t0, t, done[i])
  }

  lemma UpdateElsewhere(a0: map<string, DirAcl>, a1: map<string, DirAcl>, p: string, q: string)
    requires p in a1 && a1 == a0[p := a1[p]] && p != q
    ensures AclAt(a1, q) == AclAt(a0, q)
  {
  }

  lemma AclThere(acls: map<string, DirAcl>, p: string)
    requires p in acls
    ensures AclAt(acls, p) == acls[p]
  {
  }

  lemma ElsewhereMore(a0: map<string, DirAcl>, a1: map<string, DirAcl>, done: seq<DirJob>, job: DirJob, acl: DirAcl)
    requires AclsElsewhere(a0, a1, done)
    ensures AclsElsewhere(a0, a1[job.path := acl], done + [job])
  {
    forall q | NoJobAt(done + [job], q) ensures AclAt(a1[job.path := acl], q) == AclAt(a0, q) {
      assert (done + [job])[|done|] == job;
      forall i | 0 <= i < |done| ensures done[i].path != q {
        assert (done + [job])[i] == done[i];
      }
      assert NoJobAt(done, q);
    }
  }

  lemma StillSet(t0: Tree, t: Tree, r: Tree, done: seq<DirJob>, job: DirJob, i: nat)
    requires JobsApart(done + [job]) && i < |done| && SetBy(t0, t, done[i]) && AddsDirs(t.nodes, r.nodes)
    requires job.path in r.acls && r.acls == t.acls[job.path := r.acls[job.path]]
    ensures SetBy(t0, r, done[i])
  {
    hide AfterScript, Inherit, AclAt;
    var all := done + [job];
    assert all[i] == done[i] && all[|done|] == job;
    UpdateElsewhere(t.acls, r.acls, job.path, done[i].path);
    UpdateElsewhere(t.acls, r.acls, job.path, Parent(done[i].path));
  }

  lemma NewSet(t0: Tree, t: Tree, r: Tree, done: seq<DirJob>, job: DirJob)
    requires JobsApart(done + [job]) && AclsElsewhere(t0.acls, t.acls, done) && StillAt(t0.nodes, t.nodes, job) && IsDir(r.nodes, job.path)
    requires r.acls == t.acls[job.path := AfterScript(job.script, StartAcl(t, t.acls, job.path))]
    ensures SetBy(t0, r, job)
  {
    hide AfterScript, Inherit, AclAt;
    var all, p := done + [job], job.path;
    assert all[|done|] == job;
    forall i | 0 <= i < |done| ensures done[i].path != p {
      assert all[i] == done[i];
    }
    assert NoJobAt(done, p);
    UpdateElsewhere(t.acls, r.acls, p, Parent(p));
    AclThere(r.acls, p);
  }

  lemma OneJob(t0: Tree, t: Tree, done: seq<DirJob>, job: DirJob)
    requires Progress(t0, t, done) && JobsApart(done + [job]) && PlainJob(t.nodes, job) && StillAt(t0.nodes, t.nodes, job)
    requires !RunScript(t, job.path, job.script).err
    ensures Progress(t0, RunScript(t, job.path, job.script), done + [job])
  {
    hide WellFormed, RunScript, PlainJob, AddsDirs, AfterScript, AclAt, Inherit, JobsApart, AclsElsewhere, StartAcl, SetBy;
    var r := RunScript(t, job.path, job.script);
    StepAcl(t, job);
    PlainStep(t, job);
    ElsewhereMore(t0.acls, t.acls, done, job, AfterScript(job.script, StartAcl(t, t.acls, job.path)));
    forall i | 0 <= i < |done + [job]| ensures SetBy(t0, r, (done + [job])[i]) {
      if i < |done| { StillSet(t0, t, r, done, job, i); } else { NewSet(t0, t, r, done, job); }
    }
  }

  lemma ApartPrefix(a: seq<DirJob>, b: seq<DirJob>)
    requires JobsApart(a + b)
    ensures JobsApart(a)
  {
    forall i | 0 <= i < |a| ensures (a + b)[i] == a[i] {
    }
  }

  lemma StillLater(n0: Nodes, n1: Nodes, n2: Nodes, done: seq<DirJob>, js: seq<DirJob>)
    requires js != [] && JobsApart(done + js) && NewAt(n1, n2, js[..|js| - 1]) && StillAt(n0, n1, js[|js| - 1])
    ensures StillAt(n0, n2, js[|js| - 1])
  {
    var all, less, n := done + js, js[..|js| - 1], |js| - 1;
    assert all[|done| + n] == js[n];
    forall i | 0 <= i < n ensures less[i].path != js[n].path {
      assert all[|done| + i] == less[i];
    }
  }

  lemma {:induction false} Segment(t0: Tree, t: Tree, done: seq<DirJob>, js: seq<DirJob>)
    requires Progress(t0, t, done) && JobsApart(done + js) && PlainAll(t.nodes, js) && AllStillAt(t0.nodes, t.nodes, js)
    requires !RunJobs(t, js).err
    ensures Progress(t0, RunJobs(t, js), done + js)
  {
    hide WellFormed, RunScript, PlainJob, PlainAll, AddsDirs, NewAt, JobsApart, AclsElsewhere, SetBy, StillAt, RunJobs;
    NoLinkJobs(t);
    if js == [] {
      assert done + js == done;
    } else {
      var n := |js| - 1;
      var less, mid := js[..n], RunJobs(t, js[..n]);
      assert done + js == (done + less) + [js[n]];
      LastJob(t, js);
      ScriptErr(mid, js[n].path, js[n].script);
      PlainPrefix(t.nodes, js);
      ApartPrefix(done + less, [js[n]]);
      assert forall i :: 0 <= i < n ==> less[i] == js[i];
      Segment(t0, t, done, less);
      PlainJobs(t, less);
      NewAtAdds(t.nodes, mid.nodes, less);
      PlainLater(t.nodes, mid.nodes, js[n]);
      StillLater(t0.nodes, t.nodes, mid.nodes, done, js);
      OneJob(t0, mid, done + less, js[n]);
    }
  }

  lemma LastJob(t: Tree, jobs: seq<DirJob>)
    requires jobs != []
    ensures RunJobs(t, jobs) == RunScript(RunJobs(t, jobs[..|jobs| - 1]), jobs[|jobs| - 1].path, jobs[|jobs| - 1].script)
  {
  }

  /** A step that changes no ACL and removes none of the directories. */
  lemma Interrupt(t0: Tree, t: Tree, r: Tree, done: seq<DirJob>)
    requires Progress(t0, t, done) && WellFormed(r.nodes) && !r.err && r.acls == t.acls
    requires forall i :: 0 <= i < |done| ==> IsDir(r.nodes, done[i].path)
    ensures Progress(t0, r, done)
  {
    hide WellFormed, AfterScript, Inherit, AclAt, AclsElsewhere;
    forall i | 0 <= i < |done| ensures SetBy(t0, r, done[i]) {
      assert SetBy(t0, t, done[i]);
    }
  }

  // All jobs of a run

  function SouAll(root: string, services: seq<Service>, ous: seq<OrgUnit>, filter: Filter): seq<DirJob> {
    if services == [] then []
    else
      var n := |services| - 1;
      SouAll(root, services[..n], ous, filter) + SouJobs(root, services[n], ous, filter)
  }

  /** How many levels below `root` a path is. */
  ghost predicate AtLevel(p: string, root: string, l: nat)
    decreases l
  {
    if l == 0 then p == root else ChildOf(p, Parent(p)) && AtLevel(Parent(p), root, l - 1)
  }

  ghost predicate AllAt(jobs: seq<DirJob>, root: string, l: nat) {
    forall i :: 0 <= i < |jobs| ==> AtLevel(jobs[i].path, root, l)
  }

  lemma ChildParts(p: string, d: string)
    requires ChildOf(p, d)
    ensures |Parts(p)| == |Parts(d)| + 1
  {
    hide Split;
    ChildSplit(p, d);
    var n := p[|d| + 1..];
    SplitJoin2(d, n, '/');
    SplitPlain(n, '/');
    assert d + ['/'] + n == d + "/" + n;
  }

  lemma {:induction false} LevelParts(p: string, root: string, l: nat)
    requires AtLevel(p, root, l)
    ensures |Parts(p)| == |Parts(root)| + l && (p == root || Below(p, root))
    decreases l
  {
    hide Split;
    if l > 0 {
      LevelParts(Parent(p), root, l - 1);
      ChildParts(p, Parent(p));
      if Parent(p) != root { BelowTransitive(p, Parent(p), root); }
    }
  }

  /** The parent of the root has fewer components. */
  ghost predicate Rooted(root: string) {
    ChildOf(root, Parent(root))
  }

  lemma ParentParts(p: string, root: string, l: nat)
    requires AtLevel(p, root, l) && Rooted(root)
    ensures |Parts(Parent(p))| + 1 == |Parts(root)| + l
  {
    hide Split;
    if l > 0 { LevelParts(Parent(p), root, l - 1); } else { ChildParts(root, Parent(root)); }
  }

  /** Neither a path nor the parent of a path of the first list is a path of the second. */
  ghost predicate Cross(a: seq<DirJob>, b: seq<DirJob>) {
    forall i, j :: 0 <= i < |a| && 0 <= j < |b| ==> a[i].path != b[j].path && Parent(a[i].path) != b[j].path
  }

  lemma ApartConcat(a: seq<DirJob>, b: seq<DirJob>)
    requires JobsApart(a) && JobsApart(b) && Cross(a, b)
    ensures JobsApart(a + b)
  {
    var all := a + b;
    forall i, j | 0 <= i <= j < |all|
      ensures (i < j ==> all[i].path != all[j].path) && Parent(all[i].path) != all[j].path
    {
      if j < |a| {
        assert all[i] == a[i] && all[j] == a[j];
      } else if i < |a| {
        assert all[i] == a[i] && all[j] == b[j - |a|];
      } else {
        assert all[i] == b[i - |a|] && all[j] == b[j - |a|];
      }
    }
  }

  lemma CrossLevels(a: seq<DirJob>, b: seq<DirJob>, root: string, k: nat, l: nat)
    requires AllAt(a, root, k) && AllAt(b, root, l) && k < l && Rooted(root)
    ensures Cross(a, b)
  {
    hide Split, AtLevel;
    forall i, j | 0 <= i < |a| && 0 <= j < |b| ensures a[i].path != b[j].path && Parent(a[i].path) != b[j].path {
      LevelParts(a[i].path, root, k);
      ParentParts(a[i].path, root, k);
      LevelParts(b[j].path, root, l);
    }
  }

  lemma RootsApart(p: string, q: string, dir: string, x: string, y: string, k: nat, l: nat)
    requires CleanName(x) && CleanName(y) && x != y && AtLevel(p, dir + "/" + x, k) && AtLevel(q, dir + "/" + y, l)
    ensures p != q && Parent(p) != q
  {
    hide Split;
    MakeChild(dir, x);
    MakeChild(dir, y);
    LevelParts(p, dir + "/" + x, k);
    LevelParts(q, dir + "/" + y, l);
    UnderOne(p, q, dir, x, y);
    if k == 0 {
      ChildParts(dir + "/" + y, dir);
    } else {
      LevelParts(Parent(p), dir + "/" + x, k - 1);
      UnderOne(Parent(p), q, dir, x, y);
    }
  }

  lemma UnderOne(p: string, q: string, dir: string, x: string, y: string)
    requires CleanName(x) && CleanName(y) && x != y
    requires (p == dir + "/" + x || Below(p, dir + "/" + x)) && (q == dir + "/" + y || Below(q, dir + "/" + y))
    ensures p != q
  {
    SameName(dir, x, y);
    MakeChild(dir, x);
    MakeChild(dir, y);
    var a, b := dir + "/" + x, dir + "/" + y;
    if p == q {
      if p == a {
        BelowParent(a, dir, b);
      } else if q == b {
        BelowParent(b, dir, a);
      } else {
        assert a + "/" <= p && b + "/" <= p;
        NestedNames(p, a, b, dir);
      }
    }
  }

  lemma NestedNames(p: string, a: string, b: string, dir: string)
    requires Below(p, a) && Below(p, b) && ChildOf(a, dir) && ChildOf(b, dir)
    ensures a == b
  {
    assert a + "/" <= p && b + "/" <= p;
    if |a| < |b| {
      assert b[..|a| + 1] == p[..|a| + 1] == a + "/";
      BelowParent(b, dir, a);
      BelowIrreflexive(dir);
    } else if |b| < |a| {
      assert a[..|b| + 1] == p[..|b| + 1] == b + "/";
      BelowParent(a, dir, b);
      BelowIrreflexive(dir);
    } else {
      assert a == p[..|a|] == b;
    }
  }

  // The jobs lie apart

  lemma SnocApart(a: seq<DirJob>, job: DirJob, d: string)
    requires JobsApart(a) && ParentsIn(a, {d}) && ChildOf(job.path, d) && Parent(job.path) == d && NoJobAt(a, job.path)
    ensures JobsApart(a + [job]) && ParentsIn(a + [job], {d})
  {
    assert |job.path| > |d| by { ChildSplit(job.path, d); }
    assert JobsApart([job]) by {
      assert forall i, j :: 0 <= i <= j < |[job]| ==> [job][i] == job && [job][j] == job;
    }
    ApartConcat(a, [job]);
  }

  lemma CrossParents(a: seq<DirJob>, b: seq<DirJob>, root: string, l: nat, da: set<string>, db: set<string>)
    requires AllAt(a, root, l) && AllAt(b, root, l) && l > 0 && ParentsIn(a, da) && ParentsIn(b, db) && da !! db
    ensures Cross(a, b)
  {
    hide Split, AtLevel;
    forall i, j | 0 <= i < |a| && 0 <= j < |b| ensures a[i].path != b[j].path && Parent(a[i].path) != b[j].path {
      LevelUp(a[i].path, root, l);
      LevelParts(Parent(a[i].path), root, l - 1);
      LevelParts(b[j].path, root, l);
    }
  }

  lemma LevelUp(p: string, root: string, l: nat)
    requires AtLevel(p, root, l) && l > 0
    ensures AtLevel(Parent(p), root, l - 1) && ChildOf(p, Parent(p))
  {
  }

  lemma LevelDown(d: string, n: string, root: string, l: nat)
    requires AtLevel(d, root, l) && CleanName(n)
    ensures AtLevel(d + "/" + n, root, l + 1) && ChildOf(d + "/" + n, d) && Parent(d + "/" + n) == d
  {
    MakeChild(d, n);
  }

  lemma LevelZero(root: string)
    ensures AtLevel(root, root, 0)
  {
  }

  lemma AllAtConcat(a: seq<DirJob>, b: seq<DirJob>, root: string, l: nat)
    requires AllAt(a, root, l) && AllAt(b, root, l)
    ensures AllAt(a + b, root, l)
  {
    hide AtLevel;
  }

  lemma ParentsMore(a: seq<DirJob>, b: seq<DirJob>, da: set<string>, db: set<string>)
    requires ParentsIn(a, da) && ParentsIn(b, db)
    ensures ParentsIn(a + b, da + db)
  {
  }

  /** Distinct children of one directory. */
  lemma SiblingsLieApart(jobs: seq<DirJob>, root: string, d: string, l: nat)
    requires AtLevel(d, root, l)
    requires forall i :: 0 <= i < |jobs| ==> ChildOf(jobs[i].path, d) && Parent(jobs[i].path) == d
    requires forall i, j :: 0 <= i < j < |jobs| ==> jobs[i].path != jobs[j].path
    ensures JobsApart(jobs) && AllAt(jobs, root, l + 1) && ParentsIn(jobs, {d})
  {
    hide ChildOf, Parent;
    forall j | 0 <= j < |jobs| ensures d != jobs[j].path {
      ChildSplit(jobs[j].path, d);
    }
    forall i | 0 <= i < |jobs| ensures AtLevel(jobs[i].path, root, l + 1) {
      assert AtLevel(Parent(jobs[i].path), root, l);
    }
  }

  lemma {:induction false} ServiceJobsAt(root: string, services: seq<Service>)
    ensures |ServiceJobs(root, services)| == |services|
    ensures forall i :: 0 <= i < |services| ==> ServiceJobs(root, services)[i] == ServiceJob(root, services[i])
  {
    hide ServiceJob;
    if services != [] { ServiceJobsAt(root, services[..|services| - 1]); }
  }

  lemma {:induction false} OrgUnitJobsAt(root: string, ous: seq<OrgUnit>)
    ensures |OrgUnitJobs(root, ous)| == |ous|
    ensures forall i :: 0 <= i < |ous| ==> OrgUnitJobs(root, ous)[i] == OrgUnitJob(root, ous[i])
  {
    hide OrgUnitJob;
    if ous != [] { OrgUnitJobsAt(root, ous[..|ous| - 1]); }
  }

  /** The services' own directories. */
  lemma ServicesLieApart(root: string, services: seq<Service>)
    requires CleanServices(services) && DistinctServices(services)
    ensures var jobs := ServiceJobs(root, services);
            && |jobs| == |services| && (forall i :: 0 <= i < |jobs| ==> jobs[i].path == root + "/" + services[i].name)
            && JobsApart(jobs) && AllAt(jobs, root, 1) && ParentsIn(jobs, {root})
  {
    hide AtLevel, ServiceScript, ServiceJobs, ChildOf, Parent, JobsApart, AllAt, ParentsIn;
    var jobs := ServiceJobs(root, services);
    ServiceJobsAt(root, services);
    LevelZero(root);
    forall i | 0 <= i < |jobs| ensures jobs[i].path == root + "/" + services[i].name && ChildOf(jobs[i].path, root) && Parent(jobs[i].path) == root {
      MakeChild(root, services[i].name);
    }
    forall i, j | 0 <= i < j < |jobs| ensures jobs[i].path != jobs[j].path {
      SameName(root, services[i].name, services[j].name);
    }
    SiblingsLieApart(jobs, root, root, 0);
  }

  ghost predicate OfAccepted(jobs: seq<DirJob>, d: string, s: Service, ous: seq<OrgUnit>, filter: Filter) {
    forall i :: 0 <= i < |jobs| ==> AcceptedDir(jobs[i].path, d, s, ous, filter)
  }

  lemma AcceptedBefore(jobs: seq<DirJob>, d: string, s: Service, ous: seq<OrgUnit>, filter: Filter)
    requires ous != [] && DistinctOus(ous) && OfAccepted(jobs, d, s, ous[..|ous| - 1], filter)
    ensures OfAccepted(jobs, d, s, ous, filter) && NoJobAt(jobs, d + "/" + ous[|ous| - 1].name)
  {
    hide AcceptedDir;
    forall i | 0 <= i < |jobs|
      ensures jobs[i].path != d + "/" + ous[|ous| - 1].name && AcceptedDir(jobs[i].path, d, s, ous, filter)
    {
      PathBefore(jobs[i].path, d, s, ous, filter);
    }
  }

  lemma PathBefore(p: string, d: string, s: Service, ous: seq<OrgUnit>, filter: Filter)
    requires ous != [] && DistinctOus(ous) && AcceptedDir(p, d, s, ous[..|ous| - 1], filter)
    ensures p != d + "/" + ous[|ous| - 1].name && AcceptedDir(p, d, s, ous, filter)
  {
    var n := |ous| - 1;
    var j :| 0 <= j < n && filter(s, ous[..n][j]) && p == d + "/" + ous[..n][j].name;
    SameName(d, ous[j].name, ous[n].name);
  }

  lemma AcceptedMore(jobs: seq<DirJob>, d: string, s: Service, ous: seq<OrgUnit>, filter: Filter, job: DirJob)
    requires ous != [] && OfAccepted(jobs, d, s, ous, filter) && filter(s, ous[|ous| - 1]) && job.path == d + "/" + ous[|ous| - 1].name
    ensures OfAccepted(jobs + [job], d, s, ous, filter)
  {
  }

  /** The directories of one service's org units. */
  lemma {:induction false} SousLieApart(root: string, s: Service, ous: seq<OrgUnit>, filter: Filter)
    requires CleanName(s.name) && DistinctOus(ous) && forall i :: 0 <= i < |ous| ==> CleanName(ous[i].name)
    ensures var jobs := SouJobs(root, s, ous, filter);
            && OfAccepted(jobs, root + "/" + s.name, s, ous, filter)
            && JobsApart(jobs) && AllAt(jobs, root, 2) && ParentsIn(jobs, {root + "/" + s.name})
  {
    hide AtLevel, OfAccepted, JobsApart, ParentsIn, NoJobAt;
    if ous == [] {
      NoSousApart(root, s, filter);
    } else {
      var n := |ous| - 1;
      SousLieApart(root, s, ous[..n], filter);
      var d, less := root + "/" + s.name, SouJobs(root, s, ous[..n], filter);
      AcceptedBefore(less, d, s, ous, filter);
      if filter(s, ous[n]) {
        var job := SouJob(root, s, ous[n]);
        LevelZero(root);
        LevelDown(root, s.name, root, 0);
        LevelDown(d, ous[n].name, root, 1);
        SnocApart(less, job, d);
        AcceptedMore(less, d, s, ous, filter, job);
      } else {
        assert SouJobs(root, s, ous, filter) == less;
      }
    }
  }

  lemma NoSousApart(root: string, s: Service, filter: Filter)
    ensures OfAccepted([], root + "/" + s.name, s, [], filter) && JobsApart([]) && ParentsIn([], {root + "/" + s.name})
  {
  }

  ghost function ServiceDirsOf(root: string, services: seq<Service>): set<string> {
    set i | 0 <= i < |services| :: root + "/" + services[i].name
  }

  lemma LastServiceDir(root: string, services: seq<Service>)
    requires services != [] && DistinctServices(services)
    ensures var n := |services| - 1;
            && ServiceDirsOf(root, services) == ServiceDirsOf(root, services[..n]) + {root + "/" + services[n].name}
            && ServiceDirsOf(root, services[..n]) !! {root + "/" + services[n].name}
  {
    var n := |services| - 1;
    var less := services[..n];
    forall d ensures d in ServiceDirsOf(root, services) <==> d in ServiceDirsOf(root, less) + {root + "/" + services[n].name} {
      if d in ServiceDirsOf(root, services) {
        var i :| 0 <= i < |services| && d == root + "/" + services[i].name;
        assert i < n ==> less[i] == services[i];
      }
      if d in ServiceDirsOf(root, less) {
        var i :| 0 <= i < n && d == root + "/" + less[i].name;
        assert less[i] == services[i];
      }
    }
    if d :| d in ServiceDirsOf(root, less) && d == root + "/" + services[n].name {
      var i :| 0 <= i < n && d == root + "/" + less[i].name;
      assert less[i] == services[i];
      SameName(root, services[i].name, services[n].name);
    }
  }

  lemma {:induction false} AllSousLieApart(root: string, services: seq<Service>, ous: seq<OrgUnit>, filter: Filter)
    requires CleanServices(services) && DistinctServices(services) && DistinctOus(ous)
    requires forall i :: 0 <= i < |ous| ==> CleanName(ous[i].name)
    ensures var jobs := SouAll(root, services, ous, filter);
            JobsApart(jobs) && AllAt(jobs, root, 2) && ParentsIn(jobs, ServiceDirsOf(root, services))
  {
    hide AtLevel, SouJobs, ServiceDirsOf, JobsApart, AllAt, ParentsIn;
    if services == [] {
      NoJobsApart(root);
    } else {
      var n := |services| - 1;
      AllSousLieApart(root, services[..n], ous, filter);
      SousLieApart(root, services[n], ous, filter);
      LastServiceDir(root, services);
      var a, b := SouAll(root, services[..n], ous, filter), SouJobs(root, services[n], ous, filter);
      CrossParents(a, b, root, 2, ServiceDirsOf(root, services[..n]), {root + "/" + services[n].name});
      ApartConcat(a, b);
      AllAtConcat(a, b, root, 2);
      ParentsMore(a, b, ServiceDirsOf(root, services[..n]), {root + "/" + services[n].name});
    }
  }

  lemma NoJobsApart(root: string)
    ensures JobsApart([]) && AllAt([], root, 2) && forall ds :: ParentsIn([], ds)
  {
  }

  /** The directories of the org units. */
  lemma OusLieApart(root: string, ous: seq<OrgUnit>)
    requires DistinctOus(ous) && forall i :: 0 <= i < |ous| ==> CleanName(ous[i].name)
    ensures var jobs := OrgUnitJobs(root, ous);
            && |jobs| == |ous| && (forall i :: 0 <= i < |jobs| ==> jobs[i].path == root + "/" + ous[i].name)
            && JobsApart(jobs) && AllAt(jobs, root, 1) && ParentsIn(jobs, {root})
  {
    hide AtLevel, OrgUnitJobs, ChildOf, Parent, JobsApart, AllAt, ParentsIn;
    var jobs := OrgUnitJobs(root, ous);
    OrgUnitJobsAt(root, ous);
    LevelZero(root);
    forall i | 0 <= i < |jobs| ensures jobs[i].path == root + "/" + ous[i].name && ChildOf(jobs[i].path, root) && Parent(jobs[i].path) == root {
      MakeChild(root, ous[i].name);
    }
    forall i, j | 0 <= i < j < |jobs| ensures jobs[i].path != jobs[j].path {
      SameName(root, ous[i].name, ous[j].name);
    }
    SiblingsLieApart(jobs, root, root, 0);
  }

  lemma {:induction false} OuSubdirJobsAt(root: string, ou: OrgUnit, subdirs: seq<DirWithPolicy>)
    ensures |OuSubdirJobs(root, ou, subdirs)| == |subdirs|
    ensures forall i :: 0 <= i < |subdirs| ==> OuSubdirJobs(root, ou, subdirs)[i] == SubdirJob(root, ou, subdirs[i])
  {
    hide SubdirJob;
    if subdirs != [] { OuSubdirJobsAt(root, ou, subdirs[..|subdirs| - 1]); }
  }

  /** The additional directories of one org unit. */
  lemma SubdirsLieApart(root: string, ou: OrgUnit, subdirs: seq<DirWithPolicy>)
    requires CleanName(ou.name) && forall i :: 0 <= i < |subdirs| ==> CleanName(subdirs[i].name)
    requires forall i, j :: 0 <= i < j < |subdirs| ==> subdirs[i].name != subdirs[j].name
    ensures var jobs := OuSubdirJobs(root, ou, subdirs);
            && |jobs| == |subdirs| && (forall i :: 0 <= i < |jobs| ==> jobs[i].path == root + "/" + ou.name + "/" + subdirs[i].name)
            && JobsApart(jobs) && AllAt(jobs, root, 2) && ParentsIn(jobs, {root + "/" + ou.name})
  {
    hide AtLevel, SubdirScript, OuSubdirJobs, ChildOf, Parent, JobsApart, AllAt, ParentsIn;
    var d, jobs := root + "/" + ou.name, OuSubdirJobs(root, ou, subdirs);
    OuSubdirJobsAt(root, ou, subdirs);
    LevelZero(root);
    LevelDown(root, ou.name, root, 0);
    forall i | 0 <= i < |jobs| ensures jobs[i].path == d + "/" + subdirs[i].name && ChildOf(jobs[i].path, d) && Parent(jobs[i].path) == d {
      MakeChild(d, subdirs[i].name);
    }
    forall i, j | 0 <= i < j < |jobs| ensures jobs[i].path != jobs[j].path {
      SameName(d, subdirs[i].name, subdirs[j].name);
    }
    SiblingsLieApart(jobs, root, d, 1);
  }

  lemma LastOuDir(root: string, ous: seq<OrgUnit>)
    requires ous != [] && DistinctOus(ous)
    ensures var n := |ous| - 1;
            && OuPaths(root, ous) == OuPaths(root, ous[..n]) + {root + "/" + ous[n].name}
            && OuPaths(root, ous[..n]) !! {root + "/" + ous[n].name}
  {
    var n := |ous| - 1;
    var less := ous[..n];
    forall d ensures d in OuPaths(root, ous) <==> d in OuPaths(root, less) + {root + "/" + ous[n].name} {
      if d in OuPaths(root, ous) {
        var i :| 0 <= i < |ous| && d == root + "/" + ous[i].name;
        assert i < n ==> less[i] == ous[i];
      }
      if d in OuPaths(root, less) {
        var i :| 0 <= i < n && d == root + "/" + less[i].name;
        assert less[i] == ous[i];
      }
    }
    if d :| d in OuPaths(root, less) && d == root + "/" + ous[n].name {
      var i :| 0 <= i < n && d == root + "/" + less[i].name;
      assert less[i] == ous[i];
      SameName(root, ous[i].name, ous[n].name);
    }
  }

  ghost predicate CleanSubdirs(ous: seq<OrgUnit>) {
    forall i :: 0 <= i < |ous| ==>
      && CleanName(ous[i].name)
      && (forall k :: 0 <= k < |ous[i].subdirs| ==> CleanName(ous[i].subdirs[k].name))
      && (forall k, l :: 0 <= k < l < |ous[i].subdirs| ==> ous[i].subdirs[k].name != ous[i].subdirs[l].name)
  }

  lemma {:induction false} AllSubdirsLieApart(root: string, ous: seq<OrgUnit>)
    requires DistinctOus(ous) && CleanSubdirs(ous)
    ensures var jobs := SubdirJobs(root, ous); JobsApart(jobs) && AllAt(jobs, root, 2) && ParentsIn(jobs, OuPaths(root, ous))
  {
    hide AtLevel, OuSubdirJobs, OuPaths, JobsApart, AllAt, ParentsIn;
    if ous == [] {
      NoJobsApart(root);
    } else {
      var n := |ous| - 1;
      AllSubdirsLieApart(root, ous[..n]);
      SubdirsLieApart(root, ous[n], ous[n].subdirs);
      LastOuDir(root, ous);
      var a, b := SubdirJobs(root, ous[..n]), OuSubdirJobs(root, ous[n], ous[n].subdirs);
      CrossParents(a, b, root, 2, OuPaths(root, ous[..n]), {root + "/" + ous[n].name});
      ApartConcat(a, b);
      AllAtConcat(a, b, root, 2);
      ParentsMore(a, b, OuPaths(root, ous[..n]), {root + "/" + ous[n].name});
    }
  }

  // Jobs that wait

  /** What is at the jobs' paths is what was there at the start, and no link is above them. */
  ghost predicate Waiting(n0: Nodes, n1: Nodes, js: seq<DirJob>) {
    AllStillAt(n0, n1, js) && PlainAll(n1, js)
  }

  ghost predicate PlainPaths(nodes: Nodes, js: seq<DirJob>) {
    forall i :: 0 <= i < |js| ==> NoLinks(nodes, js[i].path)
  }

  lemma {:induction false} LevelKey(p: string, root: string, l: nat)
    requires AtLevel(p, root, l) && KeyPath(root) && Rooted(root)
    ensures KeyPath(p) && p != "" && ChildOf(p, Parent(p))
    decreases l
  {
    hide KeyPath;
    if l > 0 {
      LevelKey(Parent(p), root, l - 1);
      ChildSplit(p, Parent(p));
      KeyChild(Parent(p), p[|Parent(p)| + 1..]);
    }
    if p == "" { ChildSplit(p, Parent(p)); }
  }

  lemma WaitingFirst(nodes: Nodes, js: seq<DirJob>, root: string, l: nat)
    requires PlainPaths(nodes, js) && AllAt(js, root, l) && KeyPath(root) && Rooted(root)
    ensures Waiting(nodes, nodes, js)
  {
    hide KeyPath, AtLevel;
    forall i | 0 <= i < |js| ensures StillAt(nodes, nodes, js[i]) && PlainJob(nodes, js[i]) {
      LevelKey(js[i].path, root, l);
      ParentPlain(nodes, js[i].path);
    }
  }

  lemma ParentPlain(nodes: Nodes, p: string)
    requires NoLinks(nodes, p) && ChildOf(p, Parent(p))
    ensures NoLinks(nodes, Parent(p))
  {
    ChildSplit(p, Parent(p));
    forall q | q in nodes && (q == Parent(p) || Below(Parent(p), q)) ensures !nodes[q].Link? {
      if q != Parent(p) { BelowTransitive(p, Parent(p), q); }
    }
  }

  lemma WaitingLater(n0: Nodes, n1: Nodes, n2: Nodes, done: seq<DirJob>, js: seq<DirJob>)
    requires Waiting(n0, n1, js) && NewAt(n1, n2, done) && Cross(done, js)
    ensures Waiting(n0, n2, js)
  {
    hide PlainJob;
    forall i | 0 <= i < |js| ensures StillAt(n0, n2, js[i]) && PlainJob(n2, js[i]) {
      assert PlainJob(n1, js[i]) && StillAt(n0, n1, js[i]);
      PlainLater(n1, n2, js[i]);
    }
  }

  lemma Stage(t0: Tree, t: Tree, done: seq<DirJob>, js: seq<DirJob>)
    requires Progress(t0, t, done) && Waiting(t0.nodes, t.nodes, js) && JobsApart(done + js) && !RunJobs(t, js).err
    ensures var r := RunJobs(t, js); Progress(t0, r, done + js) && NewAt(t.nodes, r.nodes, js) && WellFormed(r.nodes)
  {
    hide WellFormed, RunJobs, NewAt, PlainAll, AllStillAt, JobsApart, SetBy, AclsElsewhere;
    Segment(t0, t, done, js);
    PlainJobs(t, js);
  }

  // The service tree

  /** Directories of processed services stay in a clean-up, and so do the accepted ones of the
      service that is cleaned. */
  lemma CleanUpKeeps(t: Tree, d: string, s: Service, ous: seq<OrgUnit>, filter: Filter, jobs: seq<DirJob>)
    requires WellFormed(t.nodes) && IsDir(t.nodes, d)
    requires forall i :: 0 <= i < |jobs| ==> IsDir(t.nodes, jobs[i].path)
    requires forall i :: 0 <= i < |jobs| ==> !ChildOf(jobs[i].path, d) || AcceptedDir(jobs[i].path, d, s, ous, filter)
    ensures var r := RmUnexpected(t, d, AcceptedOus(s, ous, filter), false);
            WellFormed(r.nodes) && r.acls == t.acls && (!r.err ==> !t.err) && forall i :: 0 <= i < |jobs| ==> IsDir(r.nodes, jobs[i].path)
  {
    hide WellFormed, Resolve, RmUnexpected;
    ResolveDir(t.nodes, d);
    RmUnexpectedSpec(t, d, AcceptedOus(s, ous, filter), false);
    forall i | 0 <= i < |jobs| ensures !MayGo(t.nodes, d, AcceptedOus(s, ous, filter), false, jobs[i].path) {
      if ChildOf(jobs[i].path, d) {
        var j :| 0 <= j < |ous| && filter(s, ous[j]) && jobs[i].path == d + "/" + ous[j].name;
        assert jobs[i].path[|d| + 1..] == ous[j].name;
        assert ous[j].name in AcceptedOus(s, ous, filter);
      }
    }
  }

  lemma ProgressDirs(t0: Tree, t: Tree, done: seq<DirJob>)
    requires Progress(t0, t, done)
    ensures WellFormed(t.nodes) && !t.err && forall i :: 0 <= i < |done| ==> IsDir(t.nodes, done[i].path)
  {
    hide WellFormed, AclsElsewhere, StartAcl, AfterScript, AclAt;
    forall i | 0 <= i < |done| ensures IsDir(t.nodes, done[i].path) {
      assert SetBy(t0, t, done[i]);
    }
  }

  ghost predicate Tops(jobs: seq<DirJob>, root: string) {
    forall i :: 0 <= i < |jobs| ==> AtLevel(jobs[i].path, root, 0) || AtLevel(jobs[i].path, root, 1)
  }

  /** None of the jobs before those of service `k` is directly in its directory. */
  lemma OthersElsewhere(root: string, services: seq<Service>, ous: seq<OrgUnit>, filter: Filter, k: nat, tops: seq<DirJob>)
    requires k < |services| && CleanServices(services) && DistinctServices(services) && DistinctOus(ous)
    requires forall i :: 0 <= i < |ous| ==> CleanName(ous[i].name)
    requires Tops(tops, root)
    ensures var d := root + "/" + services[k].name;
            var jobs := tops + SouAll(root, services[..k], ous, filter) + SouJobs(root, services[k], ous, filter);
            forall i :: 0 <= i < |jobs| ==> !ChildOf(jobs[i].path, d) || AcceptedDir(jobs[i].path, d, services[k], ous, filter)
  {
    hide AtLevel, SouJobs, SouAll, AcceptedDir, JobsApart;
    var d := root + "/" + services[k].name;
    var a, b := SouAll(root, services[..k], ous, filter), SouJobs(root, services[k], ous, filter);
    var jobs := tops + a + b;
    AllSousLieApart(root, services[..k], ous, filter);
    SousLieApart(root, services[k], ous, filter);
    LevelZero(root);
    LevelDown(root, services[k].name, root, 0);
    LevelParts(d, root, 1);
    forall i | 0 <= i < |jobs| ensures !ChildOf(jobs[i].path, d) || AcceptedDir(jobs[i].path, d, services[k], ous, filter) {
      if i < |tops| {
        assert jobs[i] == tops[i];
        if ChildOf(jobs[i].path, d) {
          ChildParts(jobs[i].path, d);
          if AtLevel(tops[i].path, root, 0) { LevelParts(tops[i].path, root, 0); } else { LevelParts(tops[i].path, root, 1); }
        }
      } else if i < |tops| + |a| {
        assert jobs[i] == a[i - |tops|];
        OtherService(a[i - |tops|], root, services, k);
      } else {
        assert jobs[i] == b[i - |tops| - |a|];
      }
    }
  }

  lemma OtherService(job: DirJob, root: string, services: seq<Service>, k: nat)
    requires k < |services| && DistinctServices(services) && CleanServices(services) && Parent(job.path) in ServiceDirsOf(root, services[..k])
    requires AtLevel(job.path, root, 2)
    ensures !ChildOf(job.path, root + "/" + services[k].name)
  {
    var i :| 0 <= i < k && Parent(job.path) == root + "/" + services[..k][i].name;
    if ChildOf(job.path, root + "/" + services[k].name) {
      OneParent(job.path, Parent(job.path), root + "/" + services[k].name);
      SameName(root, services[i].name, services[k].name);
    }
  }

  lemma TopsCross(tops: seq<DirJob>, jobs: seq<DirJob>, root: string)
    requires Tops(tops, root) && AllAt(jobs, root, 2) && Rooted(root)
    ensures Cross(tops, jobs)
  {
    hide AtLevel, Split;
    forall i, j | 0 <= i < |tops| && 0 <= j < |jobs| ensures tops[i].path != jobs[j].path && Parent(tops[i].path) != jobs[j].path {
      var l := if AtLevel(tops[i].path, root, 0) then 0 else 1;
      LevelParts(tops[i].path, root, l);
      ParentParts(tops[i].path, root, l);
      LevelParts(jobs[j].path, root, 2);
    }
  }

  lemma TopsThenSous(root: string, services: seq<Service>, ous: seq<OrgUnit>, filter: Filter, k: nat, tops: seq<DirJob>)
    requires k < |services| && CleanServices(services) && DistinctServices(services) && DistinctOus(ous)
    requires forall i :: 0 <= i < |ous| ==> CleanName(ous[i].name)
    requires JobsApart(tops) && Tops(tops, root) && Rooted(root)
    ensures JobsApart(tops + SouAll(root, services[..k], ous, filter) + SouJobs(root, services[k], ous, filter))
    ensures SouAll(root, services[..k + 1], ous, filter) == SouAll(root, services[..k], ous, filter) + SouJobs(root, services[k], ous, filter)
  {
    hide AtLevel, JobsApart, SouJobs, Cross;
    Last(services, k);
    var a, b := SouAll(root, services[..k], ous, filter), SouJobs(root, services[k], ous, filter);
    AllSousLieApart(root, services[..k + 1], ous, filter);
    TopsCross(tops, a + b, root);
    ApartConcat(tops, a + b);
    assert tops + a + b == tops + (a + b);
  }

  /** Jobs of a service wait until it is processed. */
  lemma StillWaiting(
    t0: Tree, t: Tree, mid: Tree, root: string, services: seq<Service>, ous: seq<OrgUnit>, filter: Filter, k: nat)
    requires k < |services| && CleanServices(services) && DistinctServices(services) && DistinctOus(ous)
    requires forall i :: 0 <= i < |ous| ==> CleanName(ous[i].name)
    requires KeyPath(root) && Rooted(root) && WellFormed(mid.nodes) && IsDir(mid.nodes, root + "/" + services[k].name)
    requires Framed(t.nodes, mid.nodes, root, services, k) && AllStillAt(t0.nodes, t.nodes, SouJobs(root, services[k], ous, filter))
    ensures Waiting(t0.nodes, mid.nodes, SouJobs(root, services[k], ous, filter))
  {
    hide WellFormed, AtLevel, KeyPath, OfAccepted, JobsApart, SouJobs, NoLinks;
    var d, js := root + "/" + services[k].name, SouJobs(root, services[k], ous, filter);
    SousLieApart(root, services[k], ous, filter);
    DirHasNoLinks(mid.nodes, d);
    forall i | 0 <= i < |js| ensures StillAt(t0.nodes, mid.nodes, js[i]) && PlainJob(mid.nodes, js[i]) {
      LevelKey(js[i].path, root, 2);
      assert Parent(js[i].path) in {d};
      assert OutsideAll(root, services, k, js[i].path) by { OutsideOthers(root, services, k, js[i].path); }
      assert StillAt(t0.nodes, t.nodes, js[i]);
    }
  }

  lemma OutsideOthers(root: string, services: seq<Service>, k: nat, p: string)
    requires k < |services| && CleanServices(services) && DistinctServices(services) && ChildOf(p, root + "/" + services[k].name)
    ensures OutsideAll(root, services, k, p)
  {
    forall i | 0 <= i < k ensures !ChildOf(p, root + "/" + services[i].name) {
      if ChildOf(p, root + "/" + services[i].name) {
        OneParent(p, root + "/" + services[i].name, root + "/" + services[k].name);
        SameName(root, services[i].name, services[k].name);
      }
    }
  }

  lemma {:induction false} ServicesProgress(
    t0: Tree, t: Tree, root: string, services: seq<Service>, ous: seq<OrgUnit>, filter: Filter, k: nat, tops: seq<DirJob>)
    requires k <= |services| && CleanServices(services) && DistinctServices(services) && DistinctOus(ous)
    requires forall i :: 0 <= i < |ous| ==> CleanName(ous[i].name)
    requires KeyPath(root) && Rooted(root) && Tops(tops, root) && JobsApart(tops) && Progress(t0, t, tops)
    requires forall i :: 0 <= i < |services| ==> IsDir(t.nodes, root + "/" + services[i].name)
    requires forall i :: 0 <= i < |services| ==> AllStillAt(t0.nodes, t.nodes, SouJobs(root, services[i], ous, filter))
    requires !ServiceOrgUnitDirs(t, root, services[..k], ous, filter).err
    ensures Progress(t0, ServiceOrgUnitDirs(t, root, services[..k], ous, filter), tops + SouAll(root, services[..k], ous, filter))
  {
    hide WellFormed, KeyPath, JobsApart, Tops, Progress, DistinctServices, DistinctOus, SouJobs, RmUnexpected, RunJobs, AllStillAt, Framed, Cleaned,
         Waiting;
    if k == 0 {
      assert tops + SouAll(root, services[..0], ous, filter) == tops;
    } else {
      var l := k - 1;
      Last(services, l);
      var mid := ServiceOrgUnitDirs(t, root, services[..l], ous, filter);
      ProgressDirs(t0, t, tops);
      ServicesStage(t, root, services, ous, filter, l);
      ServiceSubdirsNoNewLinks(mid, root, services[l], ous, filter);
      ServicesProgress(t0, t, root, services, ous, filter, l, tops);
      ServiceDirStays(t.nodes, mid.nodes, root, services, l, l);
      StillWaiting(t0, t, mid, root, services, ous, filter, l);
      OneService(t0, mid, root, services, ous, filter, l, tops);
    }
  }

  lemma OneService(
    t0: Tree, mid: Tree, root: string, services: seq<Service>, ous: seq<OrgUnit>, filter: Filter, l: nat, tops: seq<DirJob>)
    requires l < |services| && CleanServices(services) && DistinctServices(services) && DistinctOus(ous)
    requires forall i :: 0 <= i < |ous| ==> CleanName(ous[i].name)
    requires Rooted(root) && Tops(tops, root) && JobsApart(tops) && Progress(t0, mid, tops + SouAll(root, services[..l], ous, filter))
    requires IsDir(mid.nodes, root + "/" + services[l].name) && Waiting(t0.nodes, mid.nodes, SouJobs(root, services[l], ous, filter))
    requires !ServiceSubdirs(mid, root, services[l], ous, filter).err
    ensures Progress(t0, ServiceSubdirs(mid, root, services[l], ous, filter), tops + SouAll(root, services[..l + 1], ous, filter))
  {
    hide WellFormed, JobsApart, Progress, SouJobs, SouAll, RmUnexpected, RunJobs, Waiting, NewAt, AddsDirs, AcceptedOus, AcceptedDir;
    var d, done, js := root + "/" + services[l].name, tops + SouAll(root, services[..l], ous, filter), SouJobs(root, services[l], ous, filter);
    TopsThenSous(root, services, ous, filter, l, tops);
    ProgressDirs(t0, mid, done);
    PlainRunErr(mid, d, services[l], ous, filter, js);
    Stage(t0, mid, done, js);
    var sou := RunJobs(mid, js);
    NewAtAdds(mid.nodes, sou.nodes, js);
    DirAdds(mid.nodes, sou.nodes, d);
    ProgressDirs(t0, sou, done + js);
    OthersElsewhere(root, services, ous, filter, l, tops);
    CleanUpKeeps(sou, d, services[l], ous, filter, done + js);
    Interrupt(t0, sou, ServiceSubdirs(mid, root, services[l], ous, filter), done + js);
    assert done + js == tops + SouAll(root, services[..l + 1], ous, filter);
  }

  lemma PlainRunErr(t: Tree, d: string, s: Service, ous: seq<OrgUnit>, filter: Filter, js: seq<DirJob>)
    requires !RmUnexpected(RunJobs(t, js), d, AcceptedOus(s, ous, filter), false).err
    ensures !RunJobs(t, js).err
  {
    hide RunJobs;
    if RunJobs(t, js).err { ErrCleans(RunJobs(t, js), d, AcceptedOus(s, ous, filter)); }
  }

  /** Clean and distinct names. */
  ghost predicate OwnNames(cfg: Config, services: seq<Service>, ous: seq<OrgUnit>) {
    cfg.Valid() && CleanOrg(services, ous) && DistinctServices(services) && DistinctOus(ous) && CleanSubdirs(ous)
  }

  /** No managed directory of the service tree is, or lies below, a link. */
  ghost predicate PlainServiceTree(nodes: Nodes, root: string, services: seq<Service>, ous: seq<OrgUnit>, filter: Filter) {
    && NoLinks(nodes, root)
    && (forall i :: 0 <= i < |services| ==> NoLinks(nodes, root + "/" + services[i].name))
    && forall i, j :: 0 <= i < |services| && 0 <= j < |ous| && filter(services[i], ous[j]) ==>
         NoLinks(nodes, root + "/" + services[i].name + "/" + ous[j].name)
  }

  /** Nor of the org unit tree. */
  ghost predicate PlainOuTree(nodes: Nodes, root: string, ous: seq<OrgUnit>) {
    && NoLinks(nodes, root)
    && (forall j :: 0 <= j < |ous| ==> NoLinks(nodes, root + "/" + ous[j].name))
    && forall j, k :: 0 <= j < |ous| && 0 <= k < |ous[j].subdirs| ==>
         NoLinks(nodes, root + "/" + ous[j].name + "/" + ous[j].subdirs[k].name)
  }

  lemma OneApart(job: DirJob)
    requires ChildOf(job.path, Parent(job.path))
    ensures JobsApart([job])
  {
    ChildSplit(job.path, Parent(job.path));
    assert forall i, j :: 0 <= i <= j < |[job]| ==> [job][i] == job && [job][j] == job;
  }

  lemma RootFacts(cfg: Config)
    requires cfg.Valid()
    ensures KeyPath(cfg.ServiceRoot()) && Rooted(cfg.ServiceRoot()) && Parent(cfg.ServiceRoot()) == cfg.rootdir
    ensures KeyPath(cfg.OrgUnitRoot()) && Rooted(cfg.OrgUnitRoot()) && Parent(cfg.OrgUnitRoot()) == cfg.rootdir
  {
    AbsIsKey(cfg.rootdir);
    KeyChild(cfg.rootdir, cfg.serviceDir);
    KeyChild(cfg.rootdir, cfg.orgUnitDir);
    MakeChild(cfg.rootdir, cfg.serviceDir);
    MakeChild(cfg.rootdir, cfg.orgUnitDir);
  }

  function TopJob(root: string): seq<DirJob> {
    [DirJob(root, ToplevelSh)]
  }

  lemma TopFacts(root: string)
    requires Rooted(root)
    ensures JobsApart(TopJob(root)) && AllAt(TopJob(root), root, 0) && TopJob(root)[0].path == root
  {
    hide Parent, ChildOf;
    OneApart(DirJob(root, ToplevelSh));
    LevelZero(root);
  }

  lemma TopTwo(root: string, b: seq<DirJob>)
    requires Rooted(root) && JobsApart(b) && AllAt(b, root, 1)
    ensures Cross(TopJob(root), b) && JobsApart(TopJob(root) + b) && Tops(TopJob(root) + b, root)
  {
    hide AtLevel, JobsApart, Cross;
    TopFacts(root);
    CrossLevels(TopJob(root), b, root, 0, 1);
    ApartConcat(TopJob(root), b);
    var all := TopJob(root) + b;
    forall i | 0 <= i < |all| ensures AtLevel(all[i].path, root, 0) || AtLevel(all[i].path, root, 1) {
      if i > 0 { assert all[i] == b[i - 1]; } else { assert all[i] == TopJob(root)[0]; }
    }
  }

  lemma SouPlain(nodes: Nodes, root: string, services: seq<Service>, ous: seq<OrgUnit>, filter: Filter, i: nat)
    requires CleanServices(services) && DistinctOus(ous) && forall j :: 0 <= j < |ous| ==> CleanName(ous[j].name)
    requires PlainServiceTree(nodes, root, services, ous, filter) && i < |services|
    ensures PlainPaths(nodes, SouJobs(root, services[i], ous, filter)) && AllAt(SouJobs(root, services[i], ous, filter), root, 2)
  {
    hide AtLevel, NoLinks, SouJobs, JobsApart;
    SousLieApart(root, services[i], ous, filter);
    var js := SouJobs(root, services[i], ous, filter);
    forall m | 0 <= m < |js| ensures NoLinks(nodes, js[m].path) {
      assert AcceptedDir(js[m].path, root + "/" + services[i].name, services[i], ous, filter);
      var j :| 0 <= j < |ous| && filter(services[i], ous[j]) && js[m].path == root + "/" + services[i].name + "/" + ous[j].name;
    }
  }

  lemma StartProgress(t: Tree)
    requires WellFormed(t.nodes) && !t.err
    ensures Progress(t, t, [])
  {
    hide WellFormed, AclAt;
  }

  /** The root and the services' own directories. */
  lemma FirstStages(t: Tree, root: string, services: seq<Service>)
    requires WellFormed(t.nodes) && KeyPath(root) && Rooted(root) && CleanServices(services) && DistinctServices(services)
    requires NoLinks(t.nodes, root) && PlainServices(t.nodes, root, services)
    requires !RunJobs(RunScript(t, root, ToplevelSh), ServiceJobs(root, services)).err
    ensures var top, jobs := RunScript(t, root, ToplevelSh), ServiceJobs(root, services);
            && Progress(t, RunJobs(top, jobs), TopJob(root) + jobs) && JobsApart(TopJob(root) + jobs) && Tops(TopJob(root) + jobs, root)
            && NewAt(t.nodes, top.nodes, TopJob(root)) && NewAt(top.nodes, RunJobs(top, jobs).nodes, jobs)
  {
    hide WellFormed, KeyPath, NoLinks, RunScript, RunJobs, AtLevel, JobsApart, NewAt, Progress, ServiceJobs;
    var top, jobs := RunScript(t, root, ToplevelSh), ServiceJobs(root, services);
    TopFacts(root);
    ServicesLieApart(root, services);
    TopTwo(root, jobs);
    ServiceJobsClean(root, services);
    ScriptAddsDirs(t, root, ToplevelSh);
    JobsAddDirs(top, jobs);
    ScriptErr(t, root, ToplevelSh);
    NoLinkJobs(t);
    RunOneMore(t, [], DirJob(root, ToplevelSh));
    assert [] + [DirJob(root, ToplevelSh)] == TopJob(root);
    StartProgress(t);
    WaitingFirst(t.nodes, TopJob(root), root, 0);
    Stage(t, t, [], TopJob(root));
    assert [] + TopJob(root) == TopJob(root);
    WaitingFirst(t.nodes, jobs, root, 1);
    WaitingLater(t.nodes, t.nodes, top.nodes, TopJob(root), jobs);
    Stage(t, top, TopJob(root), jobs);
  }

  /** The jobs of the service tree. */
  ghost function ServiceTreeJobs(root: string, services: seq<Service>, ous: seq<OrgUnit>, filter: Filter): seq<DirJob> {
    TopJob(root) + ServiceJobs(root, services) + SouAll(root, services, ous, filter)
  }

  lemma SouWaits(t: Tree, root: string, services: seq<Service>, ous: seq<OrgUnit>, filter: Filter, i: nat)
    requires KeyPath(root) && Rooted(root) && CleanServices(services) && DistinctServices(services) && DistinctOus(ous)
    requires forall j :: 0 <= j < |ous| ==> CleanName(ous[j].name)
    requires PlainServiceTree(t.nodes, root, services, ous, filter) && i < |services|
    requires var top, jobs := RunScript(t, root, ToplevelSh), ServiceJobs(root, services);
             NewAt(t.nodes, top.nodes, TopJob(root)) && NewAt(top.nodes, RunJobs(top, jobs).nodes, jobs)
    ensures AllStillAt(t.nodes, RunJobs(RunScript(t, root, ToplevelSh), ServiceJobs(root, services)).nodes, SouJobs(root, services[i], ous, filter))
  {
    hide KeyPath, NoLinks, RunScript, RunJobs, AtLevel, JobsApart, NewAt, SouJobs, ServiceJobs, Cross, PlainAll, AllStillAt;
    var top, jobs, js := RunScript(t, root, ToplevelSh), ServiceJobs(root, services), SouJobs(root, services[i], ous, filter);
    SouPlain(t.nodes, root, services, ous, filter, i);
    TopFacts(root);
    ServicesLieApart(root, services);
    WaitingFirst(t.nodes, js, root, 2);
    CrossLevels(TopJob(root), js, root, 0, 2);
    CrossLevels(jobs, js, root, 1, 2);
    WaitingLater(t.nodes, t.nodes, top.nodes, TopJob(root), js);
    WaitingLater(t.nodes, top.nodes, RunJobs(top, jobs).nodes, jobs, js);
  }

  lemma ServiceHalf(t: Tree, cfg: Config, services: seq<Service>, ous: seq<OrgUnit>, filter: Filter)
    requires WellFormed(t.nodes) && OwnNames(cfg, services, ous) && PlainServiceTree(t.nodes, cfg.ServiceRoot(), services, ous, filter)
    requires !ServicePart(t, cfg, services, ous, filter).err
    ensures Progress(t, ServicePart(t, cfg, services, ous, filter), ServiceTreeJobs(cfg.ServiceRoot(), services, ous, filter))
  {
    hide WellFormed, KeyPath, NoLinks, RunScript, RunJobs, AtLevel, JobsApart, NewAt, Progress, ServiceJobs, ServiceOrgUnitDirs, SouAll, Tops,
         AllStillAt, Rooted, CleanSubdirs, TopJob;
    var root := cfg.ServiceRoot();
    var dirs := RunJobs(RunScript(t, root, ToplevelSh), ServiceJobs(root, services));
    RootFacts(cfg);
    BeforeSous(t, cfg, services, ous, filter);
    forall i | 0 <= i < |services| ensures AllStillAt(t.nodes, dirs.nodes, SouJobs(root, services[i], ous, filter)) {
      SouWaits(t, root, services, ous, filter, i);
    }
    assert services[..|services|] == services;
    ServicesProgress(t, dirs, root, services, ous, filter, |services|, TopJob(root) + ServiceJobs(root, services));
  }

  lemma TopLength(root: string)
    ensures |TopJob(root)| == 1
  {
  }

  // The org unit tree

  /** Nothing changes outside the service tree. */
  lemma ServicePartFrame(t: Tree, cfg: Config, services: seq<Service>, ous: seq<OrgUnit>, filter: Filter)
    requires WellFormed(t.nodes) && OwnNames(cfg, services, ous) && PlainServiceTree(t.nodes, cfg.ServiceRoot(), services, ous, filter)
    requires !ServicePart(t, cfg, services, ous, filter).err
    ensures forall q :: q != cfg.ServiceRoot() && !Below(q, cfg.ServiceRoot()) ==>
              SameAt(t.nodes, ServicePart(t, cfg, services, ous, filter).nodes, q)
  {
    hide WellFormed, KeyPath, NoLinks, RunScript, RunJobs, JobsApart, Progress, ServiceJobs, ServiceOrgUnitDirs, Rooted, CleanSubdirs, Cleaned, NewAt,
         Tops, TopJob, SameAt;
    var root := cfg.ServiceRoot();
    var top := RunScript(t, root, ToplevelSh);
    var dirs := RunJobs(top, ServiceJobs(root, services));
    BeforeSous(t, cfg, services, ous, filter);
    RootFacts(cfg);
    assert services[..|services|] == services;
    ServicesStage(dirs, root, services, ous, filter, |services|);
    var srv := ServicePart(t, cfg, services, ous, filter);
    forall q | q != root && !Below(q, root) ensures SameAt(t.nodes, srv.nodes, q) {
      SameBefore(t.nodes, top.nodes, dirs.nodes, root, services, q);
      OutsideRoot(root, services, q);
      FramedAt(t.nodes, dirs.nodes, srv.nodes, root, services, q);
    }
  }

  lemma FramedAt(n0: Nodes, n1: Nodes, n2: Nodes, root: string, services: seq<Service>, q: string)
    requires SameAt(n0, n1, q) && Framed(n1, n2, root, services, |services|) && OutsideAll(root, services, |services|, q)
    ensures SameAt(n0, n2, q)
  {
  }

  /** What holds before the services are processed. */
  lemma BeforeSous(t: Tree, cfg: Config, services: seq<Service>, ous: seq<OrgUnit>, filter: Filter)
    requires WellFormed(t.nodes) && OwnNames(cfg, services, ous) && PlainServiceTree(t.nodes, cfg.ServiceRoot(), services, ous, filter)
    requires !ServicePart(t, cfg, services, ous, filter).err
    ensures var root := cfg.ServiceRoot();
            var top := RunScript(t, root, ToplevelSh);
            var dirs, tops := RunJobs(top, ServiceJobs(root, services)), TopJob(root) + ServiceJobs(root, services);
            && Progress(t, dirs, tops) && JobsApart(tops) && Tops(tops, root) && WellFormed(dirs.nodes) && !dirs.err
            && NewAt(t.nodes, top.nodes, TopJob(root)) && NewAt(top.nodes, dirs.nodes, ServiceJobs(root, services))
            && forall i :: 0 <= i < |services| ==> IsDir(dirs.nodes, root + "/" + services[i].name)
  {
    hide WellFormed, KeyPath, NoLinks, RunScript, RunJobs, JobsApart, Progress, ServiceJobs, ServiceOrgUnitDirs, Rooted, CleanSubdirs, Tops, TopJob, NewAt;
    var root := cfg.ServiceRoot();
    RootFacts(cfg);
    DirsErr(t, cfg, services, ous, filter);
    FirstStages(t, root, services);
    DirsMade(t, RunJobs(RunScript(t, root, ToplevelSh), ServiceJobs(root, services)), root, services);
  }

  lemma DirsErr(t: Tree, cfg: Config, services: seq<Service>, ous: seq<OrgUnit>, filter: Filter)
    requires WellFormed(t.nodes) && cfg.Valid() && CleanOrg(services, ous) && !ServicePart(t, cfg, services, ous, filter).err
    ensures var root := cfg.ServiceRoot();
            var dirs := RunJobs(RunScript(t, root, ToplevelSh), ServiceJobs(root, services)); WellFormed(dirs.nodes) && !dirs.err
  {
    hide WellFormed, RunScript, RunJobs, ServiceJobs, ServiceOrgUnitDirs;
    var root := cfg.ServiceRoot();
    var top := RunScript(t, root, ToplevelSh);
    MakeChild(cfg.rootdir, cfg.serviceDir);
    ScriptAddsDirs(t, root, ToplevelSh);
    ServiceJobsClean(root, services);
    JobsAddDirs(top, ServiceJobs(root, services));
    ServicesNoNewLinks(RunJobs(top, ServiceJobs(root, services)), root, services, ous, filter);
  }

  lemma DirsMade(t: Tree, dirs: Tree, root: string, services: seq<Service>)
    requires Progress(t, dirs, TopJob(root) + ServiceJobs(root, services)) && CleanServices(services) && DistinctServices(services)
    ensures forall i :: 0 <= i < |services| ==> IsDir(dirs.nodes, root + "/" + services[i].name)
  {
    hide JobsApart, Progress, ServiceJobs, TopJob;
    ProgressDirs(t, dirs, TopJob(root) + ServiceJobs(root, services));
    ServicesLieApart(root, services);
    TopLength(root);
    forall i | 0 <= i < |services| ensures IsDir(dirs.nodes, root + "/" + services[i].name) {
      assert (TopJob(root) + ServiceJobs(root, services))[1 + i] == ServiceJobs(root, services)[i];
    }
  }

  lemma SameBefore(n0: Nodes, n1: Nodes, n2: Nodes, root: string, services: seq<Service>, q: string)
    requires NewAt(n0, n1, TopJob(root)) && NewAt(n1, n2, ServiceJobs(root, services))
    requires CleanServices(services) && DistinctServices(services) && q != root && !Below(q, root)
    ensures SameAt(n0, n2, q)
  {
    hide ServiceJobs, JobsApart, AllAt;
    ServicesLieApart(root, services);
    forall i | 0 <= i < |services| ensures q != root + "/" + services[i].name {
      MakeChild(root, services[i].name);
    }
  }

  lemma OutsideRoot(root: string, services: seq<Service>, q: string)
    requires CleanServices(services) && q != root && !Below(q, root)
    ensures OutsideAll(root, services, |services|, q)
  {
    forall i | 0 <= i < |services| ensures !ChildOf(q, root + "/" + services[i].name) {
      MakeChild(root, services[i].name);
      if ChildOf(q, root + "/" + services[i].name) { BelowTransitive(q, root + "/" + services[i].name, root); }
    }
  }

  ghost predicate AtSome(p: string, root: string) {
    exists l: nat :: AtLevel(p, root, l)
  }

  /** Every path is at some level below the root. */
  ghost predicate UnderAll(jobs: seq<DirJob>, root: string) {
    forall i :: 0 <= i < |jobs| ==> AtSome(jobs[i].path, root)
  }

  lemma AtIsUnder(jobs: seq<DirJob>, root: string, l: nat)
    requires AllAt(jobs, root, l)
    ensures UnderAll(jobs, root)
  {
    hide AtLevel;
    forall i | 0 <= i < |jobs| ensures AtSome(jobs[i].path, root) {
      assert AtLevel(jobs[i].path, root, l);
    }
  }

  lemma UnderConcat(a: seq<DirJob>, b: seq<DirJob>, root: string)
    requires UnderAll(a, root) && UnderAll(b, root)
    ensures UnderAll(a + b, root)
  {
    hide AtSome;
  }

  lemma CrossUnder(a: seq<DirJob>, b: seq<DirJob>, dir: string, x: string, y: string)
    requires CleanName(x) && CleanName(y) && x != y && UnderAll(a, dir + "/" + x) && UnderAll(b, dir + "/" + y)
    ensures Cross(a, b)
  {
    hide AtLevel;
    forall i, j | 0 <= i < |a| && 0 <= j < |b| ensures a[i].path != b[j].path && Parent(a[i].path) != b[j].path {
      var k: nat :| AtLevel(a[i].path, dir + "/" + x, k);
      var l: nat :| AtLevel(b[j].path, dir + "/" + y, l);
      RootsApart(a[i].path, b[j].path, dir, x, y, k, l);
    }
  }

  lemma WaitingOther(n0: Nodes, n1: Nodes, cfg: Config, js: seq<DirJob>, l: nat)
    requires cfg.Valid() && AllAt(js, cfg.OrgUnitRoot(), l) && PlainPaths(n0, js) && NoNewLinks(n0, n1)
    requires forall q :: q != cfg.ServiceRoot() && !Below(q, cfg.ServiceRoot()) ==> SameAt(n0, n1, q)
    ensures Waiting(n0, n1, js)
  {
    hide AtLevel, NoLinks, KeyPath, NoNewLinks;
    RootFacts(cfg);
    forall i | 0 <= i < |js| ensures StillAt(n0, n1, js[i]) && PlainJob(n1, js[i]) {
      var p := js[i].path;
      LevelKey(p, cfg.OrgUnitRoot(), l);
      NoLinksStays(n0, n1, p);
      ParentPlain(n1, p);
      LinkFree(n1, p);
      LevelParts(p, cfg.OrgUnitRoot(), l);
      if p == cfg.ServiceRoot() || Below(p, cfg.ServiceRoot()) { UnderOne(p, p, cfg.rootdir, cfg.serviceDir, cfg.orgUnitDir); }
    }
  }

  /** The jobs of the org unit tree. */
  ghost function OuTreeJobs(root: string, ous: seq<OrgUnit>): seq<DirJob> {
    TopJob(root) + OrgUnitJobs(root, ous) + SubdirJobs(root, ous)
  }

  lemma ServiceTreeApart(cfg: Config, services: seq<Service>, ous: seq<OrgUnit>, filter: Filter)
    requires OwnNames(cfg, services, ous)
    ensures var jobs := ServiceTreeJobs(cfg.ServiceRoot(), services, ous, filter); JobsApart(jobs) && UnderAll(jobs, cfg.ServiceRoot())
  {
    hide AtLevel, JobsApart, Cross, Tops, TopJob, UnderAll, Rooted;
    var root := cfg.ServiceRoot();
    RootFacts(cfg);
    TopFacts(root);
    ServicesLieApart(root, services);
    AllSousLieApart(root, services, ous, filter);
    TopTwo(root, ServiceJobs(root, services));
    TopsCross(TopJob(root) + ServiceJobs(root, services), SouAll(root, services, ous, filter), root);
    ApartConcat(TopJob(root) + ServiceJobs(root, services), SouAll(root, services, ous, filter));
    AtIsUnder(TopJob(root), root, 0);
    AtIsUnder(ServiceJobs(root, services), root, 1);
    AtIsUnder(SouAll(root, services, ous, filter), root, 2);
    UnderConcat(TopJob(root), ServiceJobs(root, services), root);
    UnderConcat(TopJob(root) + ServiceJobs(root, services), SouAll(root, services, ous, filter), root);
  }

  lemma OuTreeApart(cfg: Config, services: seq<Service>, ous: seq<OrgUnit>)
    requires OwnNames(cfg, services, ous)
    ensures var jobs := OuTreeJobs(cfg.OrgUnitRoot(), ous); JobsApart(jobs) && UnderAll(jobs, cfg.OrgUnitRoot())
  {
    hide AtLevel, JobsApart, Cross, Tops, TopJob, UnderAll, Rooted;
    var root := cfg.OrgUnitRoot();
    RootFacts(cfg);
    TopFacts(root);
    OusLieApart(root, ous);
    AllSubdirsLieApart(root, ous);
    TopTwo(root, OrgUnitJobs(root, ous));
    TopsCross(TopJob(root) + OrgUnitJobs(root, ous), SubdirJobs(root, ous), root);
    ApartConcat(TopJob(root) + OrgUnitJobs(root, ous), SubdirJobs(root, ous));
    AtIsUnder(TopJob(root), root, 0);
    AtIsUnder(OrgUnitJobs(root, ous), root, 1);
    AtIsUnder(SubdirJobs(root, ous), root, 2);
    UnderConcat(TopJob(root), OrgUnitJobs(root, ous), root);
    UnderConcat(TopJob(root) + OrgUnitJobs(root, ous), SubdirJobs(root, ous), root);
  }

  /** All jobs of a run, in their order. */
  ghost function AllJobs(cfg: Config, services: seq<Service>, ous: seq<OrgUnit>, filter: Filter): seq<DirJob> {
    ServiceTreeJobs(cfg.ServiceRoot(), services, ous, filter) + OuTreeJobs(cfg.OrgUnitRoot(), ous)
  }

  lemma AllApart(cfg: Config, services: seq<Service>, ous: seq<OrgUnit>, filter: Filter)
    requires OwnNames(cfg, services, ous)
    ensures JobsApart(AllJobs(cfg, services, ous, filter))
  {
    hide JobsApart, UnderAll, Cross, ServiceTreeJobs, OuTreeJobs, CleanOrg, CleanSubdirs;
    ServiceTreeApart(cfg, services, ous, filter);
    OuTreeApart(cfg, services, ous);
    CrossUnder(ServiceTreeJobs(cfg.ServiceRoot(), services, ous, filter), OuTreeJobs(cfg.OrgUnitRoot(), ous), cfg.rootdir, cfg.serviceDir, cfg.orgUnitDir);
    ApartConcat(ServiceTreeJobs(cfg.ServiceRoot(), services, ous, filter), OuTreeJobs(cfg.OrgUnitRoot(), ous));
  }

  lemma {:induction false} OuSubdirPathsPlain(nodes: Nodes, root: string, ou: OrgUnit, subdirs: seq<DirWithPolicy>)
    requires forall k :: 0 <= k < |subdirs| ==> NoLinks(nodes, root + "/" + ou.name + "/" + subdirs[k].name)
    ensures PlainPaths(nodes, OuSubdirJobs(root, ou, subdirs))
  {
    hide NoLinks, SubdirScript;
    if subdirs != [] { OuSubdirPathsPlain(nodes, root, ou, subdirs[..|subdirs| - 1]); }
  }

  lemma {:induction false} SubdirPathsPlain(nodes: Nodes, root: string, ous: seq<OrgUnit>)
    requires forall j, k :: 0 <= j < |ous| && 0 <= k < |ous[j].subdirs| ==>
               NoLinks(nodes, root + "/" + ous[j].name + "/" + ous[j].subdirs[k].name)
    ensures PlainPaths(nodes, SubdirJobs(root, ous))
  {
    hide NoLinks;
    if ous != [] {
      var n := |ous| - 1;
      assert forall j :: 0 <= j < n ==> ous[..n][j] == ous[j];
      SubdirPathsPlain(nodes, root, ous[..n]);
      OuSubdirPathsPlain(nodes, root, ous[n], ous[n].subdirs);
    }
  }

  lemma OuTreePlain(nodes: Nodes, cfg: Config, services: seq<Service>, ous: seq<OrgUnit>)
    requires OwnNames(cfg, services, ous) && PlainOuTree(nodes, cfg.OrgUnitRoot(), ous)
    ensures var root := cfg.OrgUnitRoot();
            && PlainPaths(nodes, TopJob(root)) && PlainPaths(nodes, OrgUnitJobs(root, ous)) && PlainPaths(nodes, SubdirJobs(root, ous))
            && AllAt(TopJob(root), root, 0) && AllAt(OrgUnitJobs(root, ous), root, 1) && AllAt(SubdirJobs(root, ous), root, 2)
  {
    hide NoLinks, AtLevel, JobsApart, OrgUnitJobs, SubdirJobs;
    var root := cfg.OrgUnitRoot();
    RootFacts(cfg);
    TopFacts(root);
    OusLieApart(root, ous);
    AllSubdirsLieApart(root, ous);
    SubdirPathsPlain(nodes, root, ous);
  }

  /** The jobs of the org unit tree wait until the service tree is done. */
  lemma OuTreeWaits(t: Tree, cfg: Config, services: seq<Service>, ous: seq<OrgUnit>, filter: Filter)
    requires WellFormed(t.nodes) && OwnNames(cfg, services, ous) && !ServicePart(t, cfg, services, ous, filter).err
    requires PlainServiceTree(t.nodes, cfg.ServiceRoot(), services, ous, filter) && PlainOuTree(t.nodes, cfg.OrgUnitRoot(), ous)
    ensures var srv, root := ServicePart(t, cfg, services, ous, filter).nodes, cfg.OrgUnitRoot();
            Waiting(t.nodes, srv, TopJob(root)) && Waiting(t.nodes, srv, OrgUnitJobs(root, ous)) && Waiting(t.nodes, srv, SubdirJobs(root, ous))
  {
    hide WellFormed, NoLinks, AtLevel, ServicePart, NoNewLinks, AllAt, PlainPaths, OrgUnitJobs, SubdirJobs, Waiting, SameAt, TopJob;
    var srv, root := ServicePart(t, cfg, services, ous, filter).nodes, cfg.OrgUnitRoot();
    ServicePartFrame(t, cfg, services, ous, filter);
    ServicePartNoNewLinks(t, cfg, services, ous, filter);
    OuTreePlain(t.nodes, cfg, services, ous);
    WaitingOther(t.nodes, srv, cfg, TopJob(root), 0);
    WaitingOther(t.nodes, srv, cfg, OrgUnitJobs(root, ous), 1);
    WaitingOther(t.nodes, srv, cfg, SubdirJobs(root, ous), 2);
  }

  /** The two stages before the links. */
  lemma TwoStages(t0: Tree, t: Tree, done: seq<DirJob>, root: string, a: seq<DirJob>, b: seq<DirJob>)
    requires Progress(t0, t, done) && JobsApart(done + (TopJob(root) + a + b)) && Waiting(t0.nodes, t.nodes, TopJob(root))
    requires Waiting(t0.nodes, t.nodes, a) && Waiting(t0.nodes, t.nodes, b)
    requires Cross(TopJob(root), a) && Cross(TopJob(root), b) && Cross(a, b)
    requires !RunJobs(t, TopJob(root)).err && !RunJobs(RunJobs(t, TopJob(root)), a).err
    ensures var made := RunJobs(RunJobs(t, TopJob(root)), a);
            && Progress(t0, made, done + (TopJob(root) + a)) && Waiting(t0.nodes, made.nodes, b)
            && NewAt(t.nodes, RunJobs(t, TopJob(root)).nodes, TopJob(root)) && NewAt(RunJobs(t, TopJob(root)).nodes, made.nodes, a)
  {
    hide Progress, JobsApart, Waiting, RunJobs, Cross, NewAt, TopJob;
    var j := TopJob(root);
    assert done + (j + a + b) == (done + j) + (a + b) == (done + j + a) + b;
    ApartPrefix(done + j, a + b);
    ApartPrefix(done + j + a, b);
    var top := RunJobs(t, j);
    Stage(t0, t, done, j);
    WaitingLater(t0.nodes, t.nodes, top.nodes, j, a);
    WaitingLater(t0.nodes, t.nodes, top.nodes, j, b);
    Stage(t0, top, done + j, a);
    WaitingLater(t0.nodes, top.nodes, RunJobs(top, a).nodes, a, b);
    assert done + (j + a) == done + j + a;
  }

  lemma OuTreeCross(cfg: Config, services: seq<Service>, ous: seq<OrgUnit>)
    requires OwnNames(cfg, services, ous)
    ensures var root := cfg.OrgUnitRoot();
            && Cross(TopJob(root), OrgUnitJobs(root, ous)) && Cross(TopJob(root), SubdirJobs(root, ous))
            && Cross(OrgUnitJobs(root, ous), SubdirJobs(root, ous))
  {
    hide AtLevel, JobsApart, Cross;
    var root := cfg.OrgUnitRoot();
    RootFacts(cfg);
    TopFacts(root);
    OusLieApart(root, ous);
    AllSubdirsLieApart(root, ous);
    CrossLevels(TopJob(root), OrgUnitJobs(root, ous), root, 0, 1);
    CrossLevels(TopJob(root), SubdirJobs(root, ous), root, 0, 2);
    CrossLevels(OrgUnitJobs(root, ous), SubdirJobs(root, ous), root, 1, 2);
  }

  /** After the directories of the org units. */
  lemma BeforeLinks(t: Tree, cfg: Config, services: seq<Service>, ous: seq<OrgUnit>, filter: Filter)
    requires WellFormed(t.nodes) && OwnNames(cfg, services, ous)
    requires !ServicePart(t, cfg, services, ous, filter).err && !AfterOuDirs(t, cfg, services, ous, filter).err
    requires PlainServiceTree(t.nodes, cfg.ServiceRoot(), services, ous, filter) && PlainOuTree(t.nodes, cfg.OrgUnitRoot(), ous)
    ensures var made, root := AfterOuDirs(t, cfg, services, ous, filter), cfg.OrgUnitRoot();
            && Progress(t, made, ServiceTreeJobs(cfg.ServiceRoot(), services, ous, filter) + (TopJob(root) + OrgUnitJobs(root, ous)))
            && Waiting(t.nodes, made.nodes, SubdirJobs(root, ous))
            && OnlyOuDirs(ServicePart(t, cfg, services, ous, filter).nodes, made.nodes, root, ous)
  {
    hide WellFormed, NoLinks, ServicePart, OrgUnitJobs, SubdirJobs, Waiting, Progress, JobsApart, Cross, RunJobs, RunScript, ServiceTreeJobs, CleanSubdirs,
         Rooted, NewAt, OnlyOuDirs;
    var srv, root := ServicePart(t, cfg, services, ous, filter), cfg.OrgUnitRoot();
    ServiceHalf(t, cfg, services, ous, filter);
    OuTreeWaits(t, cfg, services, ous, filter);
    OuTreeCross(cfg, services, ous);
    AllApart(cfg, services, ous, filter);
    OneTopJob(srv, root);
    TopErr(t, cfg, services, ous, filter);
    TwoStages(t, srv, ServiceTreeJobs(cfg.ServiceRoot(), services, ous, filter), root, OrgUnitJobs(root, ous), SubdirJobs(root, ous));
    OuDirsOnly(srv.nodes, RunJobs(srv, TopJob(root)).nodes, AfterOuDirs(t, cfg, services, ous, filter).nodes, root, ous);
  }

  /** New are at most the root of the org unit tree and the directories of the org units. */
  ghost predicate OnlyOuDirs(n0: Nodes, n1: Nodes, root: string, ous: seq<OrgUnit>) {
    && AddsDirs(n0, n1)
    && forall q :: q in n1 && q !in n0 ==> q == root || exists j :: 0 <= j < |ous| && q == root + "/" + ous[j].name
  }

  lemma OuDirsOnly(n0: Nodes, n1: Nodes, n2: Nodes, root: string, ous: seq<OrgUnit>)
    requires NewAt(n0, n1, TopJob(root)) && NewAt(n1, n2, OrgUnitJobs(root, ous))
    ensures OnlyOuDirs(n0, n2, root, ous)
  {
    hide OrgUnitJobs;
    OrgUnitJobsAt(root, ous);
  }

  lemma OneTopJob(t: Tree, root: string)
    ensures RunJobs(t, TopJob(root)) == RunScript(t, root, ToplevelSh)
  {
    RunOneMore(t, [], DirJob(root, ToplevelSh));
    NoLinkJobs(t);
    assert [] + [DirJob(root, ToplevelSh)] == TopJob(root);
  }

  lemma TopErr(t: Tree, cfg: Config, services: seq<Service>, ous: seq<OrgUnit>, filter: Filter)
    requires WellFormed(t.nodes) && cfg.Valid() && CleanOrg(services, ous) && !AfterOuDirs(t, cfg, services, ous, filter).err
    ensures !RunScript(ServicePart(t, cfg, services, ous, filter), cfg.OrgUnitRoot(), ToplevelSh).err
  {
    hide WellFormed, RunScript, RunJobs, ServicePart;
    var srv, root := ServicePart(t, cfg, services, ous, filter), cfg.OrgUnitRoot();
    ServicePartNoNewLinks(t, cfg, services, ous, filter);
    MakeChild(cfg.rootdir, cfg.orgUnitDir);
    ScriptAddsDirs(srv, root, ToplevelSh);
    OrgUnitJobsClean(root, ous);
    JobsAddDirs(RunScript(srv, root, ToplevelSh), OrgUnitJobs(root, ous));
  }

  // The links, and the rest

  /** No additional directory of an org unit has the name of a service that it uses. */
  ghost predicate NamesApart(services: seq<Service>, ous: seq<OrgUnit>, filter: Filter) {
    forall i, j, k :: 0 <= i < |services| && 0 <= j < |ous| && filter(services[i], ous[j]) && 0 <= k < |ous[j].subdirs| ==>
      ous[j].subdirs[k].name != services[i].name
  }

  /** Whatever is new directly in the directory of an org unit is the link of a service. */
  ghost predicate LinksOnly(made: Nodes, linked: Nodes, root: string, services: seq<Service>, ous: seq<OrgUnit>, filter: Filter) {
    && (forall p :: p in linked && !(p in made && made[p] == linked[p]) ==> linked[p].Link?)
    && (forall p :: p in made && !(p in linked && made[p] == linked[p]) ==> made[p].Link?)
    && (forall j :: 0 <= j < |ous| ==> NoStaleLinks(linked, root + "/" + ous[j].name, ous[j], services, filter))
  }

  lemma LinkStageFrame(t: Tree, cfg: Config, services: seq<Service>, ous: seq<OrgUnit>, filter: Filter)
    requires WellFormed(t.nodes) && OwnNames(cfg, services, ous) && PlainOuTree(t.nodes, cfg.OrgUnitRoot(), ous)
    requires !Applied(t, cfg, services, ous, filter).err
    ensures var made, linked := AfterOuDirs(t, cfg, services, ous, filter), AfterLinks(t, cfg, services, ous, filter);
            && WellFormed(linked.nodes) && !linked.err && linked.acls == made.acls
            && LinksOnly(made.nodes, linked.nodes, cfg.OrgUnitRoot(), services, ous, filter)
            && forall j :: 0 <= j < |ous| ==>
                 OuLinked(linked.nodes, cfg.OrgUnitRoot() + "/" + ous[j].name, cfg.serviceDir, ous[j], services, filter)
  {
    hide WellFormed, Applied, AfterOuDirs, AfterLinks, NoLinks, LinkRun, Independent, Reaches, Stripped, CleanOrg, CleanSubdirs, NoStaleLinks, OuLinked,
         IsDestSymlink;
    NoLinksRun(t, cfg, services, ous, filter);
    var ds := OwnDirs(cfg.OrgUnitRoot(), ous);
    IndependentRun(t, cfg, services, ous, filter, ds);
    var base := Stripped(AfterOuDirs(t, cfg, services, ous, filter).nodes, ds);
    RunIsStarted(t, cfg, services, ous, filter, ds, base);
    RunLinks(t, cfg, services, ous, filter, ds, base);
    LaterStages(t, cfg, services, ous, filter);
    forall j | 0 <= j < |ous| ensures LastOf(ds, j, |ous|) {
      OwnDirsOwners(cfg.OrgUnitRoot(), ous, j);
    }
  }

  lemma RunIsStarted(t: Tree, cfg: Config, services: seq<Service>, ous: seq<OrgUnit>, filter: Filter, ds: seq<string>, base: Nodes)
    requires LinkRun(t, cfg, services, ous, filter, ds, base)
    ensures LinkStart(t, cfg, services, ous, filter, ds, base)
  {
  }

  lemma SubdirStillAt(
    n0: Nodes, made: Nodes, linked: Nodes, root: string, services: seq<Service>, ous: seq<OrgUnit>, filter: Filter, job: DirJob, j: nat, k: nat)
    requires j < |ous| && k < |ous[j].subdirs| && job.path == root + "/" + ous[j].name + "/" + ous[j].subdirs[k].name
    requires CleanName(ous[j].subdirs[k].name) && NamesApart(services, ous, filter)
    requires StillAt(n0, made, job) && LinksOnly(made, linked, root, services, ous, filter)
    ensures StillAt(n0, linked, job)
  {
    var d, n := root + "/" + ous[j].name, ous[j].subdirs[k].name;
    MakeChild(d, n);
    assert (d + "/" + n)[|d| + 1..] == n;
    assert n !in AcceptedServices(services, ous[j], filter);
    assert NoStaleLinks(linked, d, ous[j], services, filter);
  }

  lemma {:induction false} SubdirAt(root: string, ous: seq<OrgUnit>, m: nat) returns (j: nat, k: nat)
    requires m < |SubdirJobs(root, ous)|
    ensures j < |ous| && k < |ous[j].subdirs| && SubdirJobs(root, ous)[m] == SubdirJob(root, ous[j], ous[j].subdirs[k])
  {
    hide SubdirJob;
    var n := |ous| - 1;
    var less := SubdirJobs(root, ous[..n]);
    if m < |less| {
      j, k := SubdirAt(root, ous[..n], m);
    } else {
      j, k := n, m - |less|;
      OuSubdirJobsAt(root, ous[n], ous[n].subdirs);
    }
  }

  lemma SubdirWaits(t: Tree, cfg: Config, services: seq<Service>, ous: seq<OrgUnit>, filter: Filter, made: Nodes, linked: Nodes)
    requires OwnNames(cfg, services, ous) && NamesApart(services, ous, filter) && WellFormed(linked)
    requires Waiting(t.nodes, made, SubdirJobs(cfg.OrgUnitRoot(), ous)) && LinksOnly(made, linked, cfg.OrgUnitRoot(), services, ous, filter)
    requires OuDirsThere(linked, cfg.OrgUnitRoot(), ous)
    ensures Waiting(t.nodes, linked, SubdirJobs(cfg.OrgUnitRoot(), ous))
  {
    hide WellFormed, SubdirJobs, LinksOnly, NamesApart, StillAt, NoLinks, KeyPath, SubdirScript;
    var root, js := cfg.OrgUnitRoot(), SubdirJobs(cfg.OrgUnitRoot(), ous);
    forall m | 0 <= m < |js| ensures StillAt(t.nodes, linked, js[m]) && PlainJob(linked, js[m]) {
      assert StillAt(t.nodes, made, js[m]) && PlainJob(made, js[m]);
      var j, k := SubdirAt(root, ous, m);
      SubdirStillAt(t.nodes, made, linked, root, services, ous, filter, js[m], j, k);
      MakeChild(root + "/" + ous[j].name, ous[j].subdirs[k].name);
      DirHasNoLinks(linked, root + "/" + ous[j].name);
    }
  }

  lemma OuDirsDone(t: Tree, cfg: Config, services: seq<Service>, ous: seq<OrgUnit>, linked: Nodes, made: Tree, done: seq<DirJob>, filter: Filter)
    requires Progress(t, made, done + (TopJob(cfg.OrgUnitRoot()) + OrgUnitJobs(cfg.OrgUnitRoot(), ous)))
    requires LinksOnly(made.nodes, linked, cfg.OrgUnitRoot(), services, ous, filter)
    ensures OuDirsThere(linked, cfg.OrgUnitRoot(), ous)
  {
    hide Progress, OrgUnitJobs, LinksOnly, TopJob, OrgUnitJob;
    var root := cfg.OrgUnitRoot();
    ProgressDirs(t, made, done + (TopJob(root) + OrgUnitJobs(root, ous)));
    forall j | 0 <= j < |ous| ensures IsDir(linked, root + "/" + ous[j].name) {
      OuJobIn(root, ous, done, j);
      DirStays(made.nodes, linked, root, services, ous, filter, root + "/" + ous[j].name);
    }
  }

  lemma OuJobIn(root: string, ous: seq<OrgUnit>, done: seq<DirJob>, j: nat)
    requires j < |ous|
    ensures var all := done + (TopJob(root) + OrgUnitJobs(root, ous));
            |done| + 1 + j < |all| && all[|done| + 1 + j].path == root + "/" + ous[j].name
  {
    hide OrgUnitJobs;
    OrgUnitJobsAt(root, ous);
    var jobs := OrgUnitJobs(root, ous);
    assert (TopJob(root) + jobs)[1 + j] == jobs[j];
    assert (done + (TopJob(root) + jobs))[|done| + (1 + j)] == (TopJob(root) + jobs)[1 + j];
  }

  lemma DirStays(made: Nodes, linked: Nodes, root: string, services: seq<Service>, ous: seq<OrgUnit>, filter: Filter, p: string)
    requires LinksOnly(made, linked, root, services, ous, filter) && IsDir(made, p)
    ensures IsDir(linked, p)
  {
    hide NoStaleLinks;
  }

  /** After the links, and then after the additional directories. */
  lemma AfterAllJobs(t: Tree, cfg: Config, services: seq<Service>, ous: seq<OrgUnit>, filter: Filter)
    requires WellFormed(t.nodes) && OwnNames(cfg, services, ous) && NamesApart(services, ous, filter)
    requires PlainServiceTree(t.nodes, cfg.ServiceRoot(), services, ous, filter) && PlainOuTree(t.nodes, cfg.OrgUnitRoot(), ous)
    requires !Applied(t, cfg, services, ous, filter).err
    ensures Progress(t, AfterSubdirs(t, cfg, services, ous, filter), AllJobs(cfg, services, ous, filter))
    ensures NewAt(AfterLinks(t, cfg, services, ous, filter).nodes, AfterSubdirs(t, cfg, services, ous, filter).nodes, SubdirJobs(cfg.OrgUnitRoot(), ous))
  {
    hide WellFormed, NoLinks, Applied, AfterOuDirs, AfterLinks, ServicePart, OrgUnitJobs, SubdirJobs, Waiting, Progress, JobsApart, Cross, RunJobs,
         ServiceTreeJobs, LinksOnly, NamesApart, CleanSubdirs, TopJob, CleanOrg, IsDestSymlink, ExplicitJobs, OuDirsThere, OuLinked, NewAt, OnlyOuDirs;
    var made, linked, root := AfterOuDirs(t, cfg, services, ous, filter), AfterLinks(t, cfg, services, ous, filter), cfg.OrgUnitRoot();
    var s := ServiceTreeJobs(cfg.ServiceRoot(), services, ous, filter);
    var done, js := s + (TopJob(root) + OrgUnitJobs(root, ous)), SubdirJobs(root, ous);
    RunStages(t, cfg, services, ous, filter);
    BeforeLinks(t, cfg, services, ous, filter);
    LinkStageFrame(t, cfg, services, ous, filter);
    LinksKeepJobs(t, made, linked, done, root, services, ous, filter);
    OuDirsDone(t, cfg, services, ous, linked.nodes, made, s, filter);
    SubdirWaits(t, cfg, services, ous, filter, made.nodes, linked.nodes);
    LaterStages(t, cfg, services, ous, filter);
    AllApart(cfg, services, ous, filter);
    assert done + js == AllJobs(cfg, services, ous, filter);
    Stage(t, linked, done, js);
  }

  lemma LinksKeepJobs(
    t: Tree, made: Tree, linked: Tree, done: seq<DirJob>, root: string, services: seq<Service>, ous: seq<OrgUnit>, filter: Filter)
    requires Progress(t, made, done) && WellFormed(linked.nodes) && !linked.err && linked.acls == made.acls
    requires LinksOnly(made.nodes, linked.nodes, root, services, ous, filter)
    ensures Progress(t, linked, done)
  {
    hide WellFormed, Progress, NoStaleLinks;
    ProgressDirs(t, made, done);
    Interrupt(t, made, linked, done);
  }

  // The whole run

  /** The directory at this path has the ACL that the script makes of the one that was there
      before the run or, for a new directory, of what it inherits from its parent. */
  ghost predicate AclMade(t: Tree, r: Tree, p: string, s: DirScript) {
    && IsDir(r.nodes, p)
    && AclAt(r.acls, p) ==
         AfterScript(s, if p in t.nodes then AclAt(t.acls, p) else Inherit(AclAt(r.acls, Parent(p)), RWX, R_X, R_X))
  }

  ghost predicate ServiceTreeMade(t: Tree, r: Tree, root: string, services: seq<Service>, ous: seq<OrgUnit>, filter: Filter) {
    && AclMade(t, r, root, ToplevelSh)
    && (forall i :: 0 <= i < |services| ==> AclMade(t, r, root + "/" + services[i].name, ServiceScript(services[i])))
    && forall i, j :: 0 <= i < |services| && 0 <= j < |ous| && filter(services[i], ous[j]) ==>
         AclMade(t, r, root + "/" + services[i].name + "/" + ous[j].name, SouJob(root, services[i], ous[j]).script)
  }

  ghost predicate OuTreeMade(t: Tree, r: Tree, root: string, ous: seq<OrgUnit>) {
    && AclMade(t, r, root, ToplevelSh)
    && (forall j :: 0 <= j < |ous| ==> AclMade(t, r, root + "/" + ous[j].name, OrgUnitSh(ous[j].orgUnitGroup.gid)))
    && forall j, k :: 0 <= j < |ous| && 0 <= k < |ous[j].subdirs| ==>
         AclMade(t, r, root + "/" + ous[j].name + "/" + ous[j].subdirs[k].name,
                 SubdirScript(ous[j].orgUnitGroup.gid, ous[j].subdirs[k].policy))
  }

  /** The paths of the directories that a run manages. */
  ghost predicate Managed(cfg: Config, services: seq<Service>, ous: seq<OrgUnit>, filter: Filter, q: string) {
    || q == cfg.ServiceRoot() || q == cfg.OrgUnitRoot()
    || (exists i :: 0 <= i < |services| && q == cfg.ServiceRoot() + "/" + services[i].name)
    || (exists i, j :: 0 <= i < |services| && 0 <= j < |ous| && filter(services[i], ous[j])
          && q == cfg.ServiceRoot() + "/" + services[i].name + "/" + ous[j].name)
    || (exists j :: 0 <= j < |ous| && q == cfg.OrgUnitRoot() + "/" + ous[j].name)
    || (exists j, k :: 0 <= j < |ous| && 0 <= k < |ous[j].subdirs|
          && q == cfg.OrgUnitRoot() + "/" + ous[j].name + "/" + ous[j].subdirs[k].name)
  }

  lemma {:induction false} SouIn(root: string, s: Service, ous: seq<OrgUnit>, filter: Filter, j: nat) returns (m: nat)
    requires j < |ous| && filter(s, ous[j])
    ensures m < |SouJobs(root, s, ous, filter)| && SouJobs(root, s, ous, filter)[m] == SouJob(root, s, ous[j])
  {
    hide SouJob;
    var n := |ous| - 1;
    if j < n { m := SouIn(root, s, ous[..n], filter, j); } else { m := |SouJobs(root, s, ous[..n], filter)|; }
  }

  lemma {:induction false} SouAllIn(root: string, services: seq<Service>, ous: seq<OrgUnit>, filter: Filter, i: nat, j: nat) returns (m: nat)
    requires i < |services| && j < |ous| && filter(services[i], ous[j])
    ensures m < |SouAll(root, services, ous, filter)| && SouAll(root, services, ous, filter)[m] == SouJob(root, services[i], ous[j])
  {
    hide SouJob, SouJobs;
    var n := |services| - 1;
    if i < n {
      m := SouAllIn(root, services[..n], ous, filter, i, j);
    } else {
      var k := SouIn(root, services[n], ous, filter, j);
      m := |SouAll(root, services[..n], ous, filter)| + k;
    }
  }

  lemma {:induction false} SouAllAt(root: string, services: seq<Service>, ous: seq<OrgUnit>, filter: Filter, m: nat) returns (i: nat, j: nat)
    requires m < |SouAll(root, services, ous, filter)|
    ensures i < |services| && j < |ous| && filter(services[i], ous[j])
    ensures SouAll(root, services, ous, filter)[m].path == root + "/" + services[i].name + "/" + ous[j].name
  {
    hide SouJobs;
    var n := |services| - 1;
    var less := SouAll(root, services[..n], ous, filter);
    if m < |less| {
      i, j := SouAllAt(root, services[..n], ous, filter, m);
    } else {
      i := n;
      j := SouAt(root, services[n], ous, filter, m - |less|);
    }
  }

  lemma {:induction false} SouAt(root: string, s: Service, ous: seq<OrgUnit>, filter: Filter, m: nat) returns (j: nat)
    requires m < |SouJobs(root, s, ous, filter)|
    ensures j < |ous| && filter(s, ous[j]) && SouJobs(root, s, ous, filter)[m].path == root + "/" + s.name + "/" + ous[j].name
  {
    var n := |ous| - 1;
    if m < |SouJobs(root, s, ous[..n], filter)| { j := SouAt(root, s, ous[..n], filter, m); } else { j := n; }
  }

  lemma {:induction false} SubdirIn(root: string, ous: seq<OrgUnit>, j: nat, k: nat) returns (m: nat)
    requires j < |ous| && k < |ous[j].subdirs|
    ensures m < |SubdirJobs(root, ous)| && SubdirJobs(root, ous)[m] == SubdirJob(root, ous[j], ous[j].subdirs[k])
  {
    hide SubdirJob, OuSubdirJobs;
    var n := |ous| - 1;
    if j < n {
      m := SubdirIn(root, ous[..n], j, k);
    } else {
      OuSubdirJobsAt(root, ous[n], ous[n].subdirs);
      m := |SubdirJobs(root, ous[..n])| + k;
    }
  }

  lemma MadeAt(t: Tree, r: Tree, done: seq<DirJob>, m: nat)
    requires Progress(t, r, done) && m < |done|
    ensures AclMade(t, r, done[m].path, done[m].script)
  {
    hide WellFormed, AclsElsewhere, AfterScript, Inherit, AclAt;
    assert SetBy(t, r, done[m]);
  }

  lemma ServiceTreeIsMade(t: Tree, r: Tree, root: string, services: seq<Service>, ous: seq<OrgUnit>, filter: Filter, rest: seq<DirJob>)
    requires CleanServices(services) && DistinctServices(services) && Progress(t, r, ServiceTreeJobs(root, services, ous, filter) + rest)
    ensures ServiceTreeMade(t, r, root, services, ous, filter)
  {
    hide Progress, AclMade, SouAll, JobsApart, AllAt, ServiceScript;
    var top, dirs, sous := TopJob(root), ServiceJobs(root, services), SouAll(root, services, ous, filter);
    var all := top + dirs + sous + rest;
    ServiceJobsAt(root, services);
    assert all[0] == top[0];
    MadeAt(t, r, all, 0);
    forall i | 0 <= i < |services| ensures AclMade(t, r, root + "/" + services[i].name, ServiceScript(services[i])) {
      assert all[1 + i] == dirs[i];
      MadeAt(t, r, all, 1 + i);
    }
    forall i, j | 0 <= i < |services| && 0 <= j < |ous| && filter(services[i], ous[j])
      ensures AclMade(t, r, root + "/" + services[i].name + "/" + ous[j].name, SouJob(root, services[i], ous[j]).script)
    {
      var m := SouAllIn(root, services, ous, filter, i, j);
      assert all[1 + |dirs| + m] == sous[m];
      MadeAt(t, r, all, 1 + |dirs| + m);
    }
  }

  lemma OuTreeIsMade(t: Tree, r: Tree, root: string, ous: seq<OrgUnit>, before: seq<DirJob>)
    requires Progress(t, r, before + OuTreeJobs(root, ous))
    ensures OuTreeMade(t, r, root, ous)
  {
    hide Progress, AclMade, SubdirScript;
    var top, dirs, subs := TopJob(root), OrgUnitJobs(root, ous), SubdirJobs(root, ous);
    var all, b := before + (top + dirs + subs), |before|;
    OrgUnitJobsAt(root, ous);
    assert all[b] == top[0];
    MadeAt(t, r, all, b);
    forall j | 0 <= j < |ous| ensures AclMade(t, r, root + "/" + ous[j].name, OrgUnitSh(ous[j].orgUnitGroup.gid)) {
      assert all[b + 1 + j] == dirs[j];
      MadeAt(t, r, all, b + 1 + j);
    }
    forall j, k | 0 <= j < |ous| && 0 <= k < |ous[j].subdirs|
      ensures AclMade(t, r, root + "/" + ous[j].name + "/" + ous[j].subdirs[k].name, SubdirScript(ous[j].orgUnitGroup.gid, ous[j].subdirs[k].policy))
    {
      var m := SubdirIn(root, ous, j, k);
      assert all[b + 1 + |dirs| + m] == subs[m];
      MadeAt(t, r, all, b + 1 + |dirs| + m);
    }
  }

  lemma JobsAreManaged(cfg: Config, services: seq<Service>, ous: seq<OrgUnit>, filter: Filter, q: string)
    requires !Managed(cfg, services, ous, filter, q)
    ensures NoJobAt(AllJobs(cfg, services, ous, filter), q)
  {
    hide SouAll, SubdirJobs, ServiceJob, OrgUnitJob, SubdirJob;
    var all := AllJobs(cfg, services, ous, filter);
    var sr, or := cfg.ServiceRoot(), cfg.OrgUnitRoot();
    var a, b := ServiceJobs(sr, services), SouAll(sr, services, ous, filter);
    var c, d := OrgUnitJobs(or, ous), SubdirJobs(or, ous);
    assert all == TopJob(sr) + a + b + (TopJob(or) + c + d);
    ServiceManaged(cfg, services, ous, filter, q);
    OuManaged(cfg, services, ous, filter, q);
  }

  lemma NoJobConcat(a: seq<DirJob>, b: seq<DirJob>, q: string)
    requires NoJobAt(a, q) && NoJobAt(b, q)
    ensures NoJobAt(a + b, q)
  {
  }

  lemma ServiceManaged(cfg: Config, services: seq<Service>, ous: seq<OrgUnit>, filter: Filter, q: string)
    requires !Managed(cfg, services, ous, filter, q)
    ensures NoJobAt(ServiceTreeJobs(cfg.ServiceRoot(), services, ous, filter), q)
  {
    hide SouAll, ServiceScript;
    var root := cfg.ServiceRoot();
    var a, b := ServiceJobs(root, services), SouAll(root, services, ous, filter);
    ServiceJobsAt(root, services);
    assert NoJobAt(TopJob(root), q);
    assert NoJobAt(a, q);
    forall m | 0 <= m < |b| ensures b[m].path != q {
      var i, j := SouAllAt(root, services, ous, filter, m);
    }
    NoJobConcat(TopJob(root), a, q);
    NoJobConcat(TopJob(root) + a, b, q);
  }

  lemma OuManaged(cfg: Config, services: seq<Service>, ous: seq<OrgUnit>, filter: Filter, q: string)
    requires !Managed(cfg, services, ous, filter, q)
    ensures NoJobAt(OuTreeJobs(cfg.OrgUnitRoot(), ous), q)
  {
    hide SubdirJobs, SubdirScript;
    var root := cfg.OrgUnitRoot();
    var a, b := OrgUnitJobs(root, ous), SubdirJobs(root, ous);
    OrgUnitJobsAt(root, ous);
    assert NoJobAt(TopJob(root), q);
    assert NoJobAt(a, q);
    forall m | 0 <= m < |b| ensures b[m].path != q {
      var j, k := SubdirAt(root, ous, m);
    }
    NoJobConcat(TopJob(root), a, q);
    NoJobConcat(TopJob(root) + a, b, q);
  }

  lemma LastLinks(t: Tree, cfg: Config, services: seq<Service>, ous: seq<OrgUnit>, filter: Filter)
    requires WellFormed(t.nodes) && OwnNames(cfg, services, ous) && NamesApart(services, ous, filter)
    requires PlainServiceTree(t.nodes, cfg.ServiceRoot(), services, ous, filter) && PlainOuTree(t.nodes, cfg.OrgUnitRoot(), ous)
    requires !Applied(t, cfg, services, ous, filter).err
    ensures Progress(t, Applied(t, cfg, services, ous, filter), AllJobs(cfg, services, ous, filter))
  {
    hide WellFormed, NoLinks, Applied, AfterOuDirs, AfterLinks, AfterSubdirs, Progress, CleanSubdirs, CleanOrg, IsDestSymlink, ExplicitJobs, AllJobs,
         ServicePart, NamesApart;
    RunStages(t, cfg, services, ous, filter);
    AfterAllJobs(t, cfg, services, ous, filter);
    LaterStages(t, cfg, services, ous, filter);
    ProgressDirs(t, AfterSubdirs(t, cfg, services, ous, filter), AllJobs(cfg, services, ous, filter));
    Interrupt(t, AfterSubdirs(t, cfg, services, ous, filter), Applied(t, cfg, services, ous, filter), AllJobs(cfg, services, ous, filter));
  }

  /** From any tree in which the managed directories are reached through no link, a run without
      error leaves every one of them with the ACL that its script makes, whether it was there
      before or not, and touches no other ACL. */
  lemma AclsMade(t: Tree, cfg: Config, services: seq<Service>, ous: seq<OrgUnit>, filter: Filter)
    requires WellFormed(t.nodes) && OwnNames(cfg, services, ous) && NamesApart(services, ous, filter)
    requires PlainServiceTree(t.nodes, cfg.ServiceRoot(), services, ous, filter) && PlainOuTree(t.nodes, cfg.OrgUnitRoot(), ous)
    requires !Applied(t, cfg, services, ous, filter).err
    ensures var r := Applied(t, cfg, services, ous, filter);
            && ServiceTreeMade(t, r, cfg.ServiceRoot(), services, ous, filter) && OuTreeMade(t, r, cfg.OrgUnitRoot(), ous)
            && forall q :: !Managed(cfg, services, ous, filter, q) ==> AclAt(r.acls, q) == AclAt(t.acls, q)
  {
    hide WellFormed, NoLinks, Applied, CleanSubdirs, NamesApart, ServiceTreeMade, OuTreeMade, Managed, AclAt, SetBy, ServiceTreeJobs, OuTreeJobs;
    var r, all := Applied(t, cfg, services, ous, filter), AllJobs(cfg, services, ous, filter);
    LastLinks(t, cfg, services, ous, filter);
    ServiceTreeIsMade(t, r, cfg.ServiceRoot(), services, ous, filter, OuTreeJobs(cfg.OrgUnitRoot(), ous));
    OuTreeIsMade(t, r, cfg.OrgUnitRoot(), ous, ServiceTreeJobs(cfg.ServiceRoot(), services, ous, filter));
    forall q | !Managed(cfg, services, ous, filter, q) ensures AclAt(r.acls, q) == AclAt(t.acls, q) {
      JobsAreManaged(cfg, services, ous, filter, q);
    }
  }
}
