/** EnsureRealShares: bringing the ACLs of the shared realpaths to what the
    compiler wants. */
module SharingAclApply {
  import opened Strings
  import opened Paths
  import opened Sharing
  import opened RealShares
  import opened AclStore
  import GetfaclText

  /** Acl.AsFacl: the entries with filesystem group names. */
  function AsFacl(fs: Bcpfs, acl: Acl): (r: Acl)
    ensures |r| == |acl|
    ensures forall i :: 0 <= i < |acl| ==> r[i] == Ace(fs.FsGroupOrgUnit(acl[i].group), acl[i].mode)
  {
    if acl == [] then []
    else
      var n := |acl| - 1;
      AsFacl(fs, acl[..n]) + [Ace(fs.FsGroupOrgUnit(acl[n].group), acl[n].mode)]
  }

  function FsGroups(fs: Bcpfs, gs: seq<Group>): (r: seq<string>)
    ensures |r| == |gs|
    ensures forall i :: 0 <= i < |gs| ==> r[i] == fs.FsGroup(gs[i])
  {
    if gs == [] then [] else [fs.FsGroup(gs[0])] + FsGroups(fs, gs[1..])
  }

  /** The ACL has the wanted normal and default entry. */
  predicate HasBoth(acl: FileAcl, ace: Ace) {
    && ace.group in acl.access.named && acl.access.named[ace.group] == ace.mode
    && ace.group in acl.DefaultNamed() && acl.DefaultNamed()[ace.group] == ace.mode
  }

  predicate NeedModify(acl: FileAcl, desired: Acl) {
    exists ace :: ace in desired && !HasBoth(acl, ace)
  }

  /** Groups with an entry that are neither desired nor managing. */
  function ToRemove(acl: FileAcl, desired: Acl, additional: seq<string>): set<string> {
    acl.access.named.Keys + acl.DefaultNamed().Keys - Grantees(desired) - Elements(additional)
  }

  /** The commands for one real share, as a function of the ACL that was read. */
  ghost function FaclOps(acl: FileAcl, path: string, desired: Acl, additional: seq<string>): seq<AclOp> {
    (if NeedModify(acl, desired) then [ModifyTree(path, desired)] else [])
    + (if ToRemove(acl, desired, additional) != {} then
         [RemoveTree(path, SortedSet(ToRemove(acl, desired, additional)))]
       else [])
  }

  ghost function ShareOps(acls: Acls, fs: Bcpfs, r: ExportEntry): seq<AclOp> {
    if !IsDirAcl(acls, r.path) then []
    else FaclOps(acls[r.path], r.path, AsFacl(fs, r.acl), FsGroups(fs, r.managing))
  }

  ghost function SharesOps(acls: Acls, fs: Bcpfs, reals: Exports): seq<AclOp> {
    if reals == [] then []
    else SharesOps(acls, fs, reals[..|reals| - 1]) + ShareOps(acls, fs, reals[|reals| - 1])
  }

  // The program

  class AclDisk {
    var acls: Acls
    var trace: seq<AclOp>

    method Setfacl(op: AclOp)
      modifies this
      ensures acls == ApplyOp(old(acls), op) && trace == old(trace) + [op]
    {
      acls := ApplyOp(acls, op);
      trace := trace + [op];
    }
  }

  predicate DesiredOk(desired: Acl) {
    forall ace :: ace in desired ==> GroupNameOk(ace.group)
  }

  method FaclNeedModify(facl: Facl, desired: Acl, ghost acl: FileAcl) returns (need: bool)
    requires Lists(facl, acl) && DesiredOk(desired)
    ensures need <==> NeedModify(acl, desired)
  {
    var have: set<string> := {};
    for i := 0 to |facl|
      invariant forall s :: s in have <==> exists k :: 0 <= k < i && facl[k].IsNamedGroup() && facl[k].String() == s
    {
      if facl[i].IsNamedGroup() { have := have + {facl[i].String()}; }
    }
    for i := 0 to |desired|
      invariant forall k :: 0 <= k < i ==> HasBoth(acl, desired[k])
    {
      var str := FaclAce("group:" + desired[i].group, desired[i].mode).String();
      assert desired[i] in desired;
      HaveMeansListed(facl, acl, have, desired[i]);
      if str !in have || "default:" + str !in have {
        return true;
      }
    }
    forall ace | ace in desired ensures HasBoth(acl, ace) {
      var k :| 0 <= k < |desired| && desired[k] == ace;
    }
    return false;
  }

  lemma HaveMeansListed(facl: Facl, acl: FileAcl, have: set<string>, ace: Ace)
    requires Lists(facl, acl) && GroupNameOk(ace.group)
    requires forall s :: s in have <==> exists k :: 0 <= k < |facl| && facl[k].IsNamedGroup() && facl[k].String() == s
    ensures var str := FaclAce("group:" + ace.group, ace.mode).String();
            str in have && "default:" + str in have <==> HasBoth(acl, ace)
  {
    var normal, dflt := FaclAce("group:" + ace.group, ace.mode), FaclAce("default:group:" + ace.group, ace.mode);
    assert "default:" + normal.String() == dflt.String();
    ListedIffHave(facl, acl, have, normal);
    ListedIffHave(facl, acl, have, dflt);
    NamedLine(acl, ace.group, ace.mode);
  }

  lemma ListedIffHave(facl: Facl, acl: FileAcl, have: set<string>, line: FaclAce)
    requires Lists(facl, acl) && line.IsNamedGroup()
    requires forall s :: s in have <==> exists k :: 0 <= k < |facl| && facl[k].IsNamedGroup() && facl[k].String() == s
    ensures line.String() in have <==> line in AllNamedLines(acl)
  {
    if line.String() in have {
      var k :| 0 <= k < |facl| && facl[k].IsNamedGroup() && facl[k].String() == line.String();
      StringInjective(facl[k], line);
      assert line in facl;
    }
    if line in AllNamedLines(acl) {
      var k :| 0 <= k < |facl| && facl[k] == line;
    }
  }

  method FaclGroupsToRemove(facl: Facl, desired: Acl, additional: seq<string>, ghost acl: FileAcl) returns (gs: seq<string>)
    requires Lists(facl, acl) && NamesOk(acl)
    ensures gs == SortedSet(ToRemove(acl, desired, additional))
  {
    hide Grantees, Elements, FaclAce.GroupName, FaclAce.IsNamedGroup, NamesOk, Lists;
    var gSet: set<string> := {};
    for i := 0 to |facl|
      invariant forall g :: g in gSet <==> exists k :: 0 <= k < i && facl[k].IsNamedGroup() && facl[k].GroupName() == g
    {
      if facl[i].IsNamedGroup() { gSet := gSet + {facl[i].GroupName()}; }
    }
    ListedNames(facl, acl, gSet);
    ghost var all := gSet;
    NobodyYet();
    for i := 0 to |desired|
      invariant gSet == all - Grantees(desired[..i])
    {
      gSet := gSet - {desired[i].group};
      GranteesOneMore(desired, i);
    }
    assert desired[..|desired|] == desired;
    ghost var undesired := gSet;
    for i := 0 to |additional|
      invariant gSet == undesired - Elements(additional[..i])
    {
      gSet := gSet - {additional[i]};
      assert additional[..i + 1] == additional[..i] + [additional[i]];
      AppendElements(additional[..i], additional[i]);
    }
    assert additional[..|additional|] == additional;
    gs := SortedList(gSet);
  }

  lemma NobodyYet()
    ensures Grantees([]) == {} && Elements<string>([]) == {}
  {
  }

  lemma GranteesOneMore(acl: Acl, i: nat)
    requires i < |acl|
    ensures Grantees(acl[..i + 1]) == Grantees(acl[..i]) + {acl[i].group}
  {
    assert acl[..i + 1] == acl[..i] + [acl[i]];
  }

  /** Collects a set in whatever order and sorts it. */
  method SortedList(s: set<string>) returns (sorted: seq<string>)
    ensures sorted == SortedSet(s)
  {
    var todo, list := s, [];
    while todo != {}
      invariant NoDuplicates(list) && Elements(list) + todo == s && Elements(list) !! todo
      decreases todo
    {
      var k :| k in todo;
      AppendElements(list, k);
      assert k !in Elements(list);
      list := list + [k];
      todo := todo - {k};
    }
    sorted := Sort(list);
    AscendingUnique(sorted, SortedSet(s));
  }

  lemma ListedNames(facl: Facl, acl: FileAcl, gSet: set<string>)
    requires Lists(facl, acl) && NamesOk(acl)
    requires forall g :: g in gSet <==> exists k :: 0 <= k < |facl| && facl[k].IsNamedGroup() && facl[k].GroupName() == g
    ensures gSet == acl.access.named.Keys + acl.DefaultNamed().Keys
  {
    forall g | g in gSet ensures g in acl.access.named || g in acl.DefaultNamed() {
      var k :| 0 <= k < |facl| && facl[k].IsNamedGroup() && facl[k].GroupName() == g;
      assert facl[k] in facl;
      if facl[k] in NamedLines("group:", acl.access.named) {
        var h :| h in acl.access.named && facl[k] == FaclAce("group:" + h, acl.access.named[h]);
        GroupNameOfTag(h, facl[k].mode);
      } else {
        var h :| h in acl.DefaultNamed() && facl[k] == FaclAce("default:group:" + h, acl.DefaultNamed()[h]);
        GroupNameOfTag(h, facl[k].mode);
      }
    }
    forall g | g in acl.access.named ensures g in gSet {
      NamedLine(acl, g, acl.access.named[g]);
      GroupNameOfTag(g, acl.access.named[g]);
      NamedIsInSet(facl, acl, gSet, FaclAce("group:" + g, acl.access.named[g]));
    }
    forall g | g in acl.DefaultNamed() ensures g in gSet {
      NamedLine(acl, g, acl.DefaultNamed()[g]);
      GroupNameOfTag(g, acl.DefaultNamed()[g]);
      NamedIsInSet(facl, acl, gSet, FaclAce("default:group:" + g, acl.DefaultNamed()[g]));
    }
  }

  lemma NamedIsInSet(facl: Facl, acl: FileAcl, gSet: set<string>, line: FaclAce)
    requires Lists(facl, acl) && line in AllNamedLines(acl)
    requires forall g :: g in gSet <==> exists k :: 0 <= k < |facl| && facl[k].IsNamedGroup() && facl[k].GroupName() == g
    ensures line.GroupName() in gSet
  {
    var k :| 0 <= k < |facl| && facl[k] == line;
  }

  method EnsureFacl(
    disk: AclDisk, path: string, facl: Facl, desired: Acl, additional: seq<string>, ghost acl: FileAcl)
    requires Lists(facl, acl) && NamesOk(acl) && DesiredOk(desired)
    modifies disk
    ensures disk.trace == old(disk.trace) + FaclOps(acl, path, desired, additional)
    ensures disk.acls == RunOps(old(disk.acls), FaclOps(acl, path, desired, additional))
  {
    ghost var a0, t0 := disk.acls, disk.trace;
    var need := FaclNeedModify(facl, desired, acl);
    if need {
      disk.Setfacl(ModifyTree(path, desired));
    }
    ghost var first := if need then [ModifyTree(path, desired)] else [];
    RunOne(a0, ModifyTree(path, desired));
    assert disk.acls == RunOps(a0, first) && disk.trace == t0 + first;
    var removeGroups := FaclGroupsToRemove(facl, desired, additional, acl);
    NoElements(removeGroups);
    if |removeGroups| > 0 {
      RunOne(disk.acls, RemoveTree(path, removeGroups));
      RunOpsConcat(a0, first, [RemoveTree(path, removeGroups)]);
      disk.Setfacl(RemoveTree(path, removeGroups));
    } else {
      assert first + [] == first;
    }
  }

  lemma RunOne(acls: Acls, op: AclOp)
    ensures RunOps(acls, [op]) == ApplyOp(acls, op) && RunOps(acls, []) == acls
  {
    assert [op][..0] == [];
    assert RunOps(acls, [op][..0]) == acls;
  }

  /** All existing directories among the paths can be read back. */
  predicate AllReadable(acls: Acls, exps: Exports) {
    forall r :: r in exps && IsDirAcl(acls, r.path) ==> Readable(acls[r.path])
  }

  /** The directories that exist, in the order of the exports. */
  function ExistingDirs(acls: Acls, exps: Exports): seq<string> {
    if exps == [] then []
    else
      var n := |exps| - 1;
      ExistingDirs(acls, exps[..n]) + if IsDirAcl(acls, exps[n].path) then [exps[n].path] else []
  }

  lemma PathsSnoc(exps: Exports)
    requires exps != []
    ensures PathsOf(exps) == PathsOf(exps[..|exps| - 1]) + [exps[|exps| - 1].path]
  {
    var n := |exps| - 1;
    var a, b := PathsOf(exps), PathsOf(exps[..n]) + [exps[n].path];
    hide PathsOf;
    assert |a| == |b| && forall i :: 0 <= i < |a| ==> a[i] == b[i];
  }

  lemma {:induction false} InExistingDirs(acls: Acls, exps: Exports, p: string)
    ensures p in ExistingDirs(acls, exps) <==> p in PathsOf(exps) && IsDirAcl(acls, p)
  {
    hide PathsOf, IsDirAcl;
    if exps != [] {
      var n := |exps| - 1;
      InExistingDirs(acls, exps[..n], p);
      PathsSnoc(exps);
    }
  }

  lemma {:induction false} ReadableDirs(acls: Acls, exps: Exports)
    ensures AllReadable(acls, exps) <==> forall p :: p in ExistingDirs(acls, exps) && p in acls ==> Readable(acls[p])
  {
    hide Readable;
    if exps != [] {
      var n := |exps| - 1;
      ReadableDirs(acls, exps[..n]);
      assert exps == exps[..n] + [exps[n]];
      assert forall r :: r in exps <==> r in exps[..n] || r == exps[n];
      var more := if IsDirAcl(acls, exps[n].path) then [exps[n].path] else [];
      assert forall p :: p in ExistingDirs(acls, exps) <==> p in ExistingDirs(acls, exps[..n]) || p in more;
    }
  }

  /** getfacl prints names as they are: no path contains a newline. */
  ghost predicate PathsPrint(exps: Exports) {
    forall r :: r in exps ==> '\n' !in r.path
  }

  /** getfaclDirPaths and the map by path: the ACLs of the existing directories, or an
      error if the parser rejects a line of their listing. */
  method GetfaclDirPaths(disk: AclDisk, exps: Exports) returns (ok: bool, facls: map<string, Facl>)
    requires forall p :: p in disk.acls ==> NamesOk(disk.acls[p])
    requires PathsPrint(exps)
    ensures ok <==> AllReadable(disk.acls, exps)
    ensures ok ==> forall p :: p in facls <==> p in PathsOf(exps) && IsDirAcl(disk.acls, p)
    ensures ok ==> forall p :: p in facls ==> Lists(facls[p], disk.acls[p])
  {
    hide Lists, Readable, NamesOk, PathsOf, AllReadable, ExistingDirs;
    var dirs := FindDirs(disk.acls, exps);
    DirsAre(disk.acls, exps);
    ReadableDirs(disk.acls, exps);
    facls := map[];
    if dirs == [] {
      return true, facls;
    }
    forall i | 0 <= i < |dirs| ensures dirs[i] in disk.acls && '\n' !in dirs[i] && NamesOk(disk.acls[dirs[i]]) {
      assert dirs[i] in dirs;
    }
    var listed;
    ok, listed := GetfaclText.ReadAcls(disk.acls, dirs);
    assert forall p :: p in dirs ==> p in disk.acls;
    if !ok { return false, facls; }
    for i := 0 to |listed|
      invariant forall p :: p in facls <==> p in dirs[..i]
      invariant forall p :: p in facls ==> p in disk.acls && Lists(facls[p], disk.acls[p])
    {
      TakeOneMore([], dirs, i);
      facls := facls[listed[i].path := listed[i].acl];
    }
    TakeEnds([], dirs);
  }

  lemma DirsAre(acls: Acls, exps: Exports)
    ensures forall p :: p in ExistingDirs(acls, exps) <==> p in PathsOf(exps) && IsDirAcl(acls, p)
    ensures PathsPrint(exps) ==> forall p :: p in ExistingDirs(acls, exps) ==> '\n' !in p
  {
    forall p ensures p in ExistingDirs(acls, exps) <==> p in PathsOf(exps) && IsDirAcl(acls, p) {
      InExistingDirs(acls, exps, p);
    }
    forall p | p in ExistingDirs(acls, exps) && PathsPrint(exps) ensures '\n' !in p {
      var i :| 0 <= i < |exps| && PathsOf(exps)[i] == p;
      assert exps[i] in exps;
    }
  }

  method FindDirs(acls: Acls, exps: Exports) returns (dirs: seq<string>)
    ensures dirs == ExistingDirs(acls, exps)
  {
    dirs := [];
    for i := 0 to |exps|
      invariant dirs == ExistingDirs(acls, exps[..i])
    {
      assert exps[..i + 1][..i] == exps[..i];
      if IsDirAcl(acls, exps[i].path) { dirs := dirs + [exps[i].path]; }
    }
    assert exps[..|exps|] == exps;
  }

  /** Group names and paths are such that getfacl prints them as they are. */
  ghost predicate NamesFit(fs: Bcpfs, exps: Exports) {
    PathsPrint(exps) && forall r :: r in exps ==> DesiredOk(AsFacl(fs, r.acl))
  }

  method EnsureRealShares(disk: AclDisk, fs: Bcpfs, reals: Exports) returns (ok: bool)
    requires forall p :: p in disk.acls ==> NamesOk(disk.acls[p])
    requires NamesFit(fs, reals)
    modifies disk
    ensures ok <==> AllReadable(old(disk.acls), reals)
    ensures !ok ==> disk.acls == old(disk.acls) && disk.trace == old(disk.trace)
    ensures ok ==> disk.trace == old(disk.trace) + SharesOps(old(disk.acls), fs, reals)
    ensures ok ==> disk.acls == RunOps(old(disk.acls), SharesOps(old(disk.acls), fs, reals))
  {
    hide SharesOps, FaclOps, RunOps, Lists, NamesOk, AllReadable, PathsOf, PathsPrint;
    ghost var a0, t0 := disk.acls, disk.trace;
    NoSharesOps(a0, fs, reals);
    var readable, facls := GetfaclDirPaths(disk, reals);
    if !readable { return false; }
    for i := 0 to |reals|
      invariant disk.trace == t0 + SharesOps(a0, fs, reals[..i])
      invariant disk.acls == RunOps(a0, SharesOps(a0, fs, reals[..i]))
    {
      var rs := reals[i];
      assert rs in reals && PathsOf(reals)[i] == rs.path;
      SharesOpsStep(a0, fs, reals, i);
      ghost var before, more := SharesOps(a0, fs, reals[..i]), ShareOps(a0, fs, rs);
      RunOpsConcat(a0, before, more);
      AppendThree(t0, before, more);
      if rs.path in facls {
        EnsureFacl(disk, rs.path, facls[rs.path], AsFacl(fs, rs.acl), FsGroups(fs, rs.managing), a0[rs.path]);
      }
    }
    return true;
  }

  lemma AppendThree(a: seq<AclOp>, b: seq<AclOp>, c: seq<AclOp>)
    ensures a + b + c == a + (b + c)
    ensures a + [] == a && b + [] == b
  {
  }

  lemma NoSharesOps(acls: Acls, fs: Bcpfs, reals: Exports)
    ensures SharesOps(acls, fs, reals[..0]) == [] && RunOps(acls, []) == acls && reals[..|reals|] == reals
  {
  }

  lemma SharesOpsStep(acls: Acls, fs: Bcpfs, reals: Exports, i: nat)
    requires i < |reals|
    ensures SharesOps(acls, fs, reals[..i + 1]) == SharesOps(acls, fs, reals[..i]) + ShareOps(acls, fs, reals[i])
  {
    assert reals[..i + 1][..i] == reals[..i];
  }
}
