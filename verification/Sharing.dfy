/** The vocabulary of the sharing compiler: access modes, ACLs, exports, and the
    map from logical sharing paths to real filesystem paths. */
module Sharing {
  import opened Strings
  import opened Paths

  datatype Option<+T> = None | Some(value: T)

  datatype Result<+T> = Ok(value: T) | Err(error: string)

  datatype Bit = R | W | X

  /** A mode in chmod `rwx` format. */
  datatype Mode = Mode(r: bool, w: bool, x: bool) {
    predicate Has(b: Bit) {
      match b
      case R => r
      case W => w
      case X => x
    }

    /** AceMode.WithoutX */
    function WithoutX(): Mode {
      Mode(r, w, false)
    }

    /** Ace.UnionMode on the two modes. */
    function Or(m: Mode): Mode {
      Mode(r || m.r, w || m.w, x || m.x)
    }

    function And(m: Mode): Mode {
      Mode(r && m.r, w && m.w, x && m.x)
    }

    predicate Within(m: Mode) {
      (r ==> m.r) && (w ==> m.w) && (x ==> m.x)
    }

    function Text(): string {
      [if r then 'r' else '-', if w then 'w' else '-', if x then 'x' else '-']
    }
  }

  const NoAccess := Mode(false, false, false)
  const TraverseOnly := Mode(false, false, true)

  datatype Ace = Ace(group: string, mode: Mode)
  type Acl = seq<Ace>

  /** Group `g` holds access bit `b` through some entry of the ACL. */
  ghost predicate Allows(acl: Acl, g: string, b: Bit) {
    exists ace :: ace in acl && ace.group == g && ace.mode.Has(b)
  }

  function Grantees(acl: Acl): set<string> {
    set ace | ace in acl :: ace.group
  }

  /** The mode of the last entry for a group; setfacl applies entries in order. */
  function LastMode(acl: Acl, g: string): Mode
    requires g in Grantees(acl)
    decreases |acl|
  {
    var n := |acl| - 1;
    assert acl == acl[..n] + [acl[n]];
    if acl[n].group == g then acl[n].mode else LastMode(acl[..n], g)
  }

  lemma {:induction false} LastModeIn(acl: Acl, g: string)
    requires g in Grantees(acl)
    ensures exists ace :: ace in acl && ace.group == g && ace.mode == LastMode(acl, g)
    decreases |acl|
  {
    var n := |acl| - 1;
    assert acl == acl[..n] + [acl[n]];
    if acl[n].group == g {
      assert acl[n] in acl;
    } else {
      LastModeIn(acl[..n], g);
      var ace :| ace in acl[..n] && ace.group == g && ace.mode == LastMode(acl[..n], g);
      assert ace in acl;
    }
  }

  /** It is the mode of an entry behind which the group does not occur. */
  lemma {:induction false} LastModeAt(acl: Acl, g: string, k: nat)
    requires k < |acl| && acl[k].group == g && forall m :: k < m < |acl| ==> acl[m].group != g
    ensures g in Grantees(acl) && LastMode(acl, g) == acl[k].mode
    decreases |acl|
  {
    assert acl[k] in acl;
    var n := |acl| - 1;
    if k < n { LastModeAt(acl[..n], g, k); }
  }

  ghost predicate ListsOnce(acl: Acl, g: string) {
    forall k, l :: 0 <= k < l < |acl| ==> acl[k].group != g || acl[l].group != g
  }

  /** Every group has one entry. */
  ghost predicate ListsEachOnce(acl: Acl) {
    forall k, l :: 0 <= k < l < |acl| ==> acl[k].group != acl[l].group
  }

  /** All entries are `--x`. */
  ghost predicate TraverseOnlyAcl(acl: Acl) {
    forall ace :: ace in acl ==> ace.mode == TraverseOnly
  }

  datatype Group = OuGroup(name: string) | OpsGroup(name: string)

  datatype ExportEntry = ExportEntry(path: string, acl: Acl, managing: seq<Group>)
  type Exports = seq<ExportEntry>

  function PathsOf(exps: Exports): (r: seq<string>)
    ensures |r| == |exps|
    ensures forall i :: 0 <= i < |exps| ==> r[i] == exps[i].path
  {
    if exps == [] then [] else [exps[0].path] + PathsOf(exps[1..])
  }

  /** The org unit of a logical path. */
  function FirstPart(p: string): string {
    Parts(p)[0]
  }

  datatype Bcpfs = Bcpfs(
    rootdir: string,
    serviceDir: string,
    orgUnitDir: string,
    serviceGroupPrefix: string,
    orgUnitGroupPrefix: string,
    facilityByService: map<string, string>,
    facilityDirs: set<string>)
  {
    /** What the configuration guarantees: clean directory names and, as
        NewBcpfs fills both maps in one loop, a facility directory for every
        service. */
    ghost predicate Valid() {
      && AbsPath(rootdir)
      && CleanName(serviceDir) && CleanName(orgUnitDir) && serviceDir != orgUnitDir
      && forall s :: s in facilityByService ==> facilityByService[s] + "-facility" in facilityDirs
    }

    function FsGroupOrgUnit(ou: string): string {
      orgUnitGroupPrefix + "_" + ou
    }

    function FsGroup(g: Group): string {
      match g
      case OuGroup(ou) => orgUnitGroupPrefix + "_" + ou
      case OpsGroup(fac) => serviceGroupPrefix + "_" + fac + "-ops"
    }

    predicate IsServicePath(p: string) {
      |Parts(p)| >= 2 && Parts(p)[1] in facilityByService
    }

    predicate IsFacilityPath(p: string) {
      Parts(p)[0] in facilityDirs
    }

    predicate IsServiceRealpath(p: string) {
      Parts(p)[0] == serviceDir
    }

    function ManagingGroupsOfPath(p: string): Result<seq<Group>> {
      var parts := Parts(p);
      if !IsServicePath(p) then Ok([OuGroup(parts[0])])
      else if IsFacilityPath(p) then
        if |parts| < 3 then Err("service path too short")
        else Ok([OuGroup(parts[2]), OpsGroup(facilityByService[parts[1]])])
      else Ok([OuGroup(parts[0]), OpsGroup(facilityByService[parts[1]])])
    }

    function Realpath(p: string): string {
      var parts := Parts(p);
      if !IsServicePath(p) then Join([orgUnitDir, p])
      else if IsFacilityPath(p) then Join([serviceDir] + parts[1..])
      else Join([serviceDir, parts[1], parts[0]] + parts[2..])
    }

    /** The components of a realpath. */
    function RealParts(p: string): seq<string> {
      var parts := Parts(p);
      if !IsServicePath(p) then [orgUnitDir] + parts
      else if IsFacilityPath(p) then [serviceDir] + parts[1..]
      else [serviceDir, parts[1], parts[0]] + parts[2..]
    }
  }

  /** Joining clean names gives the path with these components. */
  lemma JoinNames(names: seq<string>)
    requires CleanNames(names) && |names| > 0
    ensures Join(names) == Concat(names, '/') && RelPath(Join(names)) && Parts(Join(names)) == names
  {
    AllPartsOfNames(names);
    JoinRel(names);
  }

  lemma RealpathParts(fs: Bcpfs, p: string)
    requires fs.Valid() && RelPath(p)
    ensures RelPath(fs.Realpath(p)) && Parts(fs.Realpath(p)) == fs.RealParts(p)
  {
    var parts := Parts(p);
    if !fs.IsServicePath(p) {
      NameIsRelPath(fs.orgUnitDir);
      JoinRel([fs.orgUnitDir, p]);
      assert AllParts([p]) == parts + AllParts([]);
      assert AllParts([fs.orgUnitDir, p]) == [fs.orgUnitDir] + parts;
    } else {
      JoinNames(fs.RealParts(p));
    }
  }

  /** Two service paths name the same service, org unit and rest, once the
      facility form `<facility>/<service>/<ou>/...` and the org unit form
      `<ou>/<service>/...` are identified. */
  ghost predicate SameServiceTarget(fs: Bcpfs, p: string, q: string) {
    && fs.IsServicePath(p) && fs.IsServicePath(q) && Parts(p)[1] == Parts(q)[1]
    && if fs.IsFacilityPath(p) then
         if fs.IsFacilityPath(q) then Parts(p)[2..] == Parts(q)[2..]
         else Parts(p)[2..] == [Parts(q)[0]] + Parts(q)[2..]
       else
         if fs.IsFacilityPath(q) then Parts(q)[2..] == [Parts(p)[0]] + Parts(p)[2..]
         else p == q
  }

  /** Exactly these logical paths share a realpath. */
  lemma SameRealpath(fs: Bcpfs, p: string, q: string)
    requires fs.Valid() && RelPath(p) && RelPath(q)
    ensures fs.Realpath(p) == fs.Realpath(q) <==> p == q || SameServiceTarget(fs, p, q)
  {
    RealpathParts(fs, p);
    RealpathParts(fs, q);
    var a, b := fs.RealParts(p), fs.RealParts(q);
    assert fs.Realpath(p) == fs.Realpath(q) <==> a == b by {
      if a == b { SplitInjective(fs.Realpath(p), fs.Realpath(q), '/'); }
    }
    TailDeterminesPath(p, q);
    if a == b {
      assert a[0] == b[0] && a[1..] == b[1..];
      if fs.IsServicePath(p) {
        assert a[1] == b[1] && a[2..] == b[2..];
        assert fs.IsServicePath(q);
        ServiceTail(fs, p);
        ServiceTail(fs, q);
        if !fs.IsFacilityPath(p) && !fs.IsFacilityPath(q) {
          assert a[2] == b[2] && a[3..] == b[3..];
        }
      }
    }
    if SameServiceTarget(fs, p, q) {
      ServiceTail(fs, p);
      ServiceTail(fs, q);
      assert a == [a[0], a[1]] + a[2..] && b == [b[0], b[1]] + b[2..];
    }
  }

  lemma ServiceTail(fs: Bcpfs, p: string)
    requires fs.IsServicePath(p)
    ensures fs.RealParts(p)[0] == fs.serviceDir && fs.RealParts(p)[1] == Parts(p)[1]
    ensures fs.RealParts(p)[2..] ==
            if fs.IsFacilityPath(p) then Parts(p)[2..] else [Parts(p)[0]] + Parts(p)[2..]
  {
  }

  lemma TailDeterminesPath(p: string, q: string)
    ensures Parts(p) == Parts(q) ==> p == q
    ensures
      |Parts(p)| >= 2 && |Parts(q)| >= 2 && Parts(p)[..2] == Parts(q)[..2] && Parts(p)[2..] == Parts(q)[2..]
      ==> p == q
  {
    var a, b := Parts(p), Parts(q);
    if |a| >= 2 && |b| >= 2 && a[..2] == b[..2] && a[2..] == b[2..] {
      assert a == a[..2] + a[2..] && b == b[..2] + b[2..];
    }
    if a == b { SplitInjective(p, q, '/'); }
  }

  /** Managing groups are a function of the realpath, so merging exports that
      share a realpath may keep the managing groups of any of them. */
  lemma ManagingGroupsOfRealpath(fs: Bcpfs, p: string, q: string)
    requires fs.Valid() && RelPath(p) && RelPath(q)
    requires fs.Realpath(p) == fs.Realpath(q)
    requires fs.ManagingGroupsOfPath(p).Ok? && fs.ManagingGroupsOfPath(q).Ok?
    ensures fs.ManagingGroupsOfPath(p) == fs.ManagingGroupsOfPath(q)
  {
    SameRealpath(fs, p, q);
    if p != q {
      var a, b := Parts(p), Parts(q);
      if fs.IsFacilityPath(p) && fs.IsFacilityPath(q) {
        assert a[2] == a[2..][0] == b[2..][0] == b[2];
      } else if fs.IsFacilityPath(p) {
        assert a[2] == a[2..][0] == b[0];
      } else if fs.IsFacilityPath(q) {
        assert b[2] == b[2..][0] == a[0];
      }
    }
  }

  // NewBcpfs

  datatype Facility = Facility(name: string, services: seq<string>)

  function OwnedBy(services: seq<string>, fac: string): map<string, string> {
    map s | s in services :: fac
  }

  lemma OwnedByStep(before: map<string, string>, services: seq<string>, j: nat, fac: string)
    requires j < |services|
    ensures (before + OwnedBy(services[..j], fac))[services[j] := fac] == before + OwnedBy(services[..j + 1], fac)
  {
    assert services[..j + 1] == services[..j] + [services[j]];
  }

  /** The service-to-facility map: a facility overrides the ones before it. */
  function FacilityByService(facs: seq<Facility>): map<string, string> {
    if facs == [] then map[]
    else
      var last := facs[|facs| - 1];
      FacilityByService(facs[..|facs| - 1]) + OwnedBy(last.services, last.name)
  }

  function FacilityDirs(facs: seq<Facility>): set<string> {
    set f | f in facs :: f.name + "-facility"
  }

  method NewFacilityMaps(facs: seq<Facility>) returns (byService: map<string, string>, dirs: set<string>)
    ensures byService == FacilityByService(facs) && dirs == FacilityDirs(facs)
  {
    byService, dirs := map[], {};
    for i := 0 to |facs|
      invariant byService == FacilityByService(facs[..i]) && dirs == FacilityDirs(facs[..i])
    {
      var fac := facs[i];
      ghost var before := byService;
      for j := 0 to |fac.services|
        invariant byService == before + OwnedBy(fac.services[..j], fac.name)
      {
        byService := byService[fac.services[j] := fac.name];
        OwnedByStep(before, fac.services, j, fac.name);
      }
      dirs := dirs + {fac.name + "-facility"};
      assert fac.services[..|fac.services|] == fac.services;
      FacilityMapsStep(facs, i);
    }
    assert facs[..|facs|] == facs;
  }

  lemma FacilityMapsStep(facs: seq<Facility>, i: nat)
    requires i < |facs|
    ensures FacilityByService(facs[..i + 1]) == FacilityByService(facs[..i]) + OwnedBy(facs[i].services, facs[i].name)
    ensures FacilityDirs(facs[..i + 1]) == FacilityDirs(facs[..i]) + {facs[i].name + "-facility"}
  {
    assert facs[..i + 1] == facs[..i] + [facs[i]];
    assert facs[..i + 1][..i] == facs[..i];
  }

  /** Every service belongs to the last facility that lists it, and has a
      facility directory. */
  lemma {:induction false} FacilityMaps(facs: seq<Facility>, s: string)
    ensures s in FacilityByService(facs) <==> exists i :: 0 <= i < |facs| && s in facs[i].services
    ensures s in FacilityByService(facs) ==>
              exists i :: 0 <= i < |facs| && s in facs[i].services && facs[i].name == FacilityByService(facs)[s]
                && forall j :: i < j < |facs| ==> s !in facs[j].services
    ensures s in FacilityByService(facs) ==> FacilityByService(facs)[s] + "-facility" in FacilityDirs(facs)
  {
    if facs != [] {
      var n := |facs| - 1;
      FacilityMaps(facs[..n], s);
      if s in facs[n].services {
        assert FacilityByService(facs)[s] == facs[n].name;
      } else if s in FacilityByService(facs) {
        var i :| 0 <= i < n && s in facs[..n][i].services && facs[..n][i].name == FacilityByService(facs)[s]
          && forall j :: i < j < n ==> s !in facs[..n][j].services;
        assert facs[i] == facs[..n][i];
        forall j | i < j < |facs| ensures s !in facs[j].services {
          if j < n { assert facs[..n][j] == facs[j]; }
        }
      }
    }
  }

  /** The facility directories are those of all facilities, also of ones without services. */
  lemma FacilityDirsMean(facs: seq<Facility>, d: string)
    ensures d in FacilityDirs(facs) <==> exists i :: 0 <= i < |facs| && d == facs[i].name + "-facility"
  {
    if i :| 0 <= i < |facs| && d == facs[i].name + "-facility" { assert facs[i] in facs; }
    if f :| f in facs && d == f.name + "-facility" { var i :| 0 <= i < |facs| && facs[i] == f; }
  }

  // checkExportEntryAclScopes

  method CheckExportEntryAclScopes(fs: Bcpfs, exp: ExportEntry) returns (ok: bool)
    ensures
      ok
      <==>
      && FirstPart(exp.path) !in Grantees(exp.acl)
      && (fs.IsServicePath(exp.path) ==>
            fs.facilityByService[Parts(exp.path)[1]] + "-facility" !in Grantees(exp.acl))
  {
    var groups: set<string> := {};
    for i := 0 to |exp.acl|
      invariant groups == Grantees(exp.acl[..i])
    {
      groups := groups + {exp.acl[i].group};
      assert exp.acl[..i + 1] == exp.acl[..i] + [exp.acl[i]];
    }
    assert exp.acl[..|exp.acl|] == exp.acl;
    if Parts(exp.path)[0] in groups {
      return false;
    }
    if fs.IsServicePath(exp.path) && fs.facilityByService[Parts(exp.path)[1]] + "-facility" in groups {
      return false;
    }
    return true;
  }

  /** The scope check is meant to keep exports away from the ACL entries of the
      managing org unit.  On what it accepts that is so exactly if a service path
      in facility form does not grant to its own third component. */
  lemma ScopeCheckProtectsManagingOrgUnit(fs: Bcpfs, exp: ExportEntry)
    requires fs.ManagingGroupsOfPath(exp.path).Ok?
    requires FirstPart(exp.path) !in Grantees(exp.acl)
    ensures (forall g :: g in Grantees(exp.acl) ==> OuGroup(g) !in fs.ManagingGroupsOfPath(exp.path).value)
      <==> (fs.IsServicePath(exp.path) && fs.IsFacilityPath(exp.path) ==> Parts(exp.path)[2] !in Grantees(exp.acl))
  {
    var managing := fs.ManagingGroupsOfPath(exp.path).value;
    var parts := Parts(exp.path);
    if fs.IsServicePath(exp.path) && fs.IsFacilityPath(exp.path) {
      assert managing[0] == OuGroup(parts[2]);
      assert OuGroup(parts[2]) in managing;
    } else {
      assert managing[0] == OuGroup(parts[0]);
    }
  }

  /** The part of an org unit in facility form, exported to that org unit: the scope check
      accepts it. */
  lemma ScopeGap(fs: Bcpfs, dir: string, srv: string, ou: string, acl: Acl)
    requires CleanName(dir) && CleanName(srv) && CleanName(ou) && dir in fs.facilityDirs
    requires srv in fs.facilityByService && fs.facilityByService[srv] + "-facility" == dir
    requires Grantees(acl) == {ou} && ou != dir
    ensures var p := dir + "/" + srv + "/" + ou;
            && FirstPart(p) !in Grantees(acl)
            && fs.IsServicePath(p) && fs.facilityByService[Parts(p)[1]] + "-facility" !in Grantees(acl)
            && fs.ManagingGroupsOfPath(p) == Ok([OuGroup(ou), OpsGroup(fs.facilityByService[srv])])
  {
    hide Split, Grantees;
    ThreeParts(dir, srv, ou);
  }

  /** For example, facility `em` operates `mic`, and the part of `lab` is exported to `lab`,
      its managing org unit. */
  lemma ScopeGapExample(fs: Bcpfs, mode: Mode)
    requires "em-facility" in fs.facilityDirs
    requires "mic" in fs.facilityByService && fs.facilityByService["mic"] == "em"
    ensures var p, acl := "em-facility/mic/lab", [Ace("lab", mode)];
            && FirstPart(p) !in Grantees(acl)
            && fs.IsServicePath(p) && fs.facilityByService[Parts(p)[1]] + "-facility" !in Grantees(acl)
            && fs.ManagingGroupsOfPath(p) == Ok([OuGroup("lab"), OpsGroup("em")]) && "lab" in Grantees(acl)
  {
    hide Split, Parts, Bcpfs.ManagingGroupsOfPath, Bcpfs.IsServicePath;
    var acl := [Ace("lab", mode)];
    assert acl[0] in acl;
    assert |"em-facility"| != |"lab"|;
    assert "em" + "-facility" == "em-facility";
    ScopeGap(fs, "em-facility", "mic", "lab", acl);
    assert "em-facility" + "/" + "mic" + "/" + "lab" == "em-facility/mic/lab";
  }

  lemma ThreeParts(a: string, b: string, c: string)
    requires CleanName(a) && CleanName(b) && CleanName(c)
    ensures Parts(a + "/" + b + "/" + c) == [a, b, c]
  {
    SplitPlain(a, '/');
    SplitPlain(b, '/');
    SplitPlain(c, '/');
    SplitJoin2(a, b, '/');
    SplitJoin2(a + ['/'] + b, c, '/');
    assert a + ['/'] + b + ['/'] + c == a + "/" + b + "/" + c;
  }
}
