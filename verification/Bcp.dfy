/** The organization as parsed from the Unix groups and the configuration. */
module Bcp {
  import opened Strings
  import opened Sharing
  import opened Organization
  import opened Groups

  datatype FacilityCfg = FacilityCfg(name: string, services: seq<string>, access: string)

  datatype OrgUnitCfg = OrgUnitCfg(name: string, subdirs: seq<DirWithPolicy>, extraDirs: seq<string>)

  datatype BcpCfg = BcpCfg(
    superGroup: string,
    orgUnitPrefix: string,
    servicePrefix: string,
    opsSuffix: string,
    facilitySuffix: string,
    facilities: seq<FacilityCfg>,
    orgUnits: seq<OrgUnitCfg>)
  {
    function OuPrefix(): string {
      orgUnitPrefix + "_"
    }

    function SrvPrefix(): string {
      servicePrefix + "_"
    }
  }

  predicate HasSuffix(s: string, suf: string) {
    |suf| <= |s| && s[|s| - |suf|..] == suf
  }

  function TrimSuffix(s: string, suf: string): string {
    if HasSuffix(s, suf) then s[..|s| - |suf|] else s
  }

  // Names

  /** `org_<x>` -> `<x>` */
  function OrgUnitNames(gs: seq<UnixGroup>, cfg: BcpCfg): seq<string> {
    if gs == [] then []
    else
      var n := |gs| - 1;
      OrgUnitNames(gs[..n], cfg) + if cfg.OuPrefix() <= gs[n].name then [gs[n].name[|cfg.OuPrefix()|..]] else []
  }

  predicate IsServiceGroup(g: UnixGroup, cfg: BcpCfg) {
    cfg.SrvPrefix() <= g.name && !HasSuffix(g.name, "-" + cfg.opsSuffix)
  }

  /** `srv_<x>` -> `<x>` unless `-ops` suffix. */
  function ServiceNames(gs: seq<UnixGroup>, cfg: BcpCfg): seq<string> {
    if gs == [] then []
    else
      var n := |gs| - 1;
      ServiceNames(gs[..n], cfg) + if IsServiceGroup(gs[n], cfg) then [gs[n].name[|cfg.SrvPrefix()|..]] else []
  }

  function FacilityNameOf(g: UnixGroup, cfg: BcpCfg): Option<string> {
    if !(cfg.OuPrefix() <= g.name) then None
    else
      var n := g.name[|cfg.OuPrefix()|..];
      if HasSuffix(n, "-" + cfg.facilitySuffix) then Some(n[..|n| - |"-" + cfg.facilitySuffix|]) else None
  }

  /** `org_<x>-facility` -> `<x>` */
  function FacilityNames(gs: seq<UnixGroup>, cfg: BcpCfg): seq<string> {
    if gs == [] then []
    else
      var n := |gs| - 1;
      FacilityNames(gs[..n], cfg) + match FacilityNameOf(gs[n], cfg) case Some(f) => [f] case None => []
  }

  method ParseOrgUnitNames(gs: seq<UnixGroup>, cfg: BcpCfg) returns (ous: seq<string>)
    ensures ous == OrgUnitNames(gs, cfg)
  {
    var pfx := cfg.OuPrefix();
    ous := [];
    for i := 0 to |gs|
      invariant ous == OrgUnitNames(gs[..i], cfg)
    {
      assert gs[..i + 1][..i] == gs[..i];
      if pfx <= gs[i].name { ous := ous + [gs[i].name[|pfx|..]]; }
    }
    assert gs[..|gs|] == gs;
  }

  method ParseServiceNames(gs: seq<UnixGroup>, cfg: BcpCfg) returns (ss: seq<string>)
    ensures ss == ServiceNames(gs, cfg)
  {
    var pfx, suf := cfg.SrvPrefix(), "-" + cfg.opsSuffix;
    ss := [];
    for i := 0 to |gs|
      invariant ss == ServiceNames(gs[..i], cfg)
    {
      assert gs[..i + 1][..i] == gs[..i];
      if !(pfx <= gs[i].name) { continue; }
      if HasSuffix(gs[i].name, suf) { continue; }
      ss := ss + [gs[i].name[|pfx|..]];
    }
    assert gs[..|gs|] == gs;
  }

  method ParseFacilityNames(gs: seq<UnixGroup>, cfg: BcpCfg) returns (fs: seq<string>)
    ensures fs == FacilityNames(gs, cfg)
  {
    var pfx, suf := cfg.OuPrefix(), "-" + cfg.facilitySuffix;
    fs := [];
    for i := 0 to |gs|
      invariant fs == FacilityNames(gs[..i], cfg)
    {
      assert gs[..i + 1][..i] == gs[..i];
      var n := gs[i].name;
      if !(pfx <= n) { continue; }
      n := n[|pfx|..];
      if !HasSuffix(n, suf) { continue; }
      fs := fs + [n[..|n| - |suf|]];
    }
    assert gs[..|gs|] == gs;
  }

  // Org units

  function GroupDirs(names: seq<string>): (r: seq<DirWithPolicy>)
    ensures |r| == |names| && forall i :: 0 <= i < |r| ==> r[i] == DirWithPolicy(names[i], GroupPolicy)
  {
    seq(|names|, i requires 0 <= i < |names| => DirWithPolicy(names[i], GroupPolicy))
  }

  /** All additional directories of an org unit, the old-style ones with policy `group`. */
  function DirsOf(cou: OrgUnitCfg): seq<DirWithPolicy> {
    cou.subdirs + GroupDirs(cou.extraDirs)
  }

  ghost predicate DistinctDirs(ds: seq<DirWithPolicy>) {
    forall i, j :: 0 <= i < j < |ds| ==> ds[i].name != ds[j].name
  }

  /** Only a list without duplicate names passes; the first duplicate is reported. */
  method CheckDirs(cou: OrgUnitCfg) returns (ok: bool, sds: seq<DirWithPolicy>)
    ensures ok <==> DistinctDirs(DirsOf(cou))
    ensures sds == DirsOf(cou)
  {
    hide DirNames, DistinctDirs;
    var used: set<string> := {};
    ok, sds := true, [];
    var all := DirsOf(cou);
    NoDirs();
    for i := 0 to |cou.subdirs|
      invariant sds == all[..i] && used == DirNames(all[..i])
      invariant ok <==> DistinctDirs(all[..i])
    {
      CheckOneMore(all, i, used);
      var d := cou.subdirs[i];
      if d.name in used { ok := false; }
      used := used + {d.name};
      sds := sds + [DirWithPolicy(d.name, d.policy)];
    }
    var k := |cou.subdirs|;
    for i := 0 to |cou.extraDirs|
      invariant sds == all[..k + i] && used == DirNames(all[..k + i])
      invariant ok <==> DistinctDirs(all[..k + i])
    {
      CheckOneMore(all, k + i, used);
      if cou.extraDirs[i] in used { ok := false; }
      used := used + {cou.extraDirs[i]};
      sds := sds + [DirWithPolicy(cou.extraDirs[i], GroupPolicy)];
    }
    assert all[..|all|] == all;
  }

  lemma NoDirs()
    ensures DirNames([]) == {} && DistinctDirs([])
  {
  }

  function DirNames(ds: seq<DirWithPolicy>): set<string> {
    set d | d in ds :: d.name
  }

  lemma DirNamesSnoc(ds: seq<DirWithPolicy>, d: DirWithPolicy)
    ensures DirNames(ds + [d]) == DirNames(ds) + {d.name} && DirNames([]) == {}
  {
    assert d in ds + [d];
    forall n | n in DirNames(ds) ensures n in DirNames(ds + [d]) {
      var e :| e in ds && e.name == n;
      assert e in ds + [d];
    }
  }

  lemma DistinctSnoc(ds: seq<DirWithPolicy>, d: DirWithPolicy)
    ensures DistinctDirs(ds + [d]) <==> DistinctDirs(ds) && d.name !in DirNames(ds)
  {
    var more := ds + [d];
    if d.name in DirNames(ds) {
      var e :| e in ds && e.name == d.name;
      var k :| 0 <= k < |ds| && ds[k] == e;
      assert more[k].name == more[|ds|].name;
    }
    if DistinctDirs(more) {
      forall a, b | 0 <= a < b < |ds| ensures ds[a].name != ds[b].name {
        assert more[a].name != more[b].name;
      }
    }
    forall k | 0 <= k < |ds| ensures ds[k].name in DirNames(ds) {
      assert ds[k] in ds;
    }
  }

  lemma CheckOneMore(all: seq<DirWithPolicy>, i: nat, used: set<string>)
    requires i < |all| && used == DirNames(all[..i])
    ensures all[..i + 1] == all[..i] + [all[i]]
    ensures DirNames(all[..i + 1]) == used + {all[i].name}
    ensures DistinctDirs(all[..i + 1]) <==> DistinctDirs(all[..i]) && all[i].name !in used
  {
    hide DirNames, DistinctDirs;
    assert all[..i + 1] == all[..i] + [all[i]];
    DirNamesSnoc(all[..i], all[i]);
    DistinctSnoc(all[..i], all[i]);
  }

  /** The directories by org unit; a later section replaces an earlier one. */
  function DirsByOu(cous: seq<OrgUnitCfg>): map<string, seq<DirWithPolicy>> {
    if cous == [] then map[]
    else
      var n := |cous| - 1;
      DirsByOu(cous[..n])[cous[n].name := DirsOf(cous[n])]
  }

  ghost predicate AllDistinct(cous: seq<OrgUnitCfg>) {
    forall i :: 0 <= i < |cous| ==> DistinctDirs(DirsOf(cous[i]))
  }

  function OrgUnitFor(cfg: BcpCfg, byName: map<string, UnixGroup>, dirs: map<string, seq<DirWithPolicy>>, o: string): Option<OrgUnit> {
    var fsuf := "-" + cfg.facilitySuffix;
    if cfg.OuPrefix() + o !in byName then None
    else Some(OrgUnit(
      o, if o in dirs then dirs[o] else [],
      HasSuffix(o, fsuf), if HasSuffix(o, fsuf) then TrimSuffix(o, fsuf) else "",
      byName[cfg.OuPrefix() + o]))
  }

  function OrgUnitsFor(cfg: BcpCfg, byName: map<string, UnixGroup>, dirs: map<string, seq<DirWithPolicy>>, names: seq<string>): Option<seq<OrgUnit>> {
    if names == [] then Some([])
    else
      var n := |names| - 1;
      match (OrgUnitsFor(cfg, byName, dirs, names[..n]), OrgUnitFor(cfg, byName, dirs, names[n]))
      case (Some(ous), Some(ou)) => Some(ous + [ou])
      case _ => None
  }

  lemma {:induction false} OrgUnitsPrefix(
    cfg: BcpCfg, byName: map<string, UnixGroup>, dirs: map<string, seq<DirWithPolicy>>, names: seq<string>, k: nat)
    requires k <= |names| && OrgUnitsFor(cfg, byName, dirs, names).Some?
    ensures OrgUnitsFor(cfg, byName, dirs, names[..k]).Some?
    decreases |names| - k
  {
    if k == |names| {
      assert names[..k] == names;
    } else {
      OrgUnitsPrefix(cfg, byName, dirs, names, k + 1);
      assert names[..k + 1][..k] == names[..k];
    }
  }

  method ParseOrgUnits(names: seq<string>, cfg: BcpCfg, byName: map<string, UnixGroup>) returns (r: Result<seq<OrgUnit>>)
    ensures r.Ok? <==> AllDistinct(cfg.orgUnits) && OrgUnitsFor(cfg, byName, DirsByOu(cfg.orgUnits), names).Some?
    ensures r.Ok? ==> Some(r.value) == OrgUnitsFor(cfg, byName, DirsByOu(cfg.orgUnits), names)
  {
    var subdirsByOu: map<string, seq<DirWithPolicy>> := map[];
    for i := 0 to |cfg.orgUnits|
      invariant AllDistinct(cfg.orgUnits[..i]) && subdirsByOu == DirsByOu(cfg.orgUnits[..i])
    {
      assert cfg.orgUnits[..i + 1][..i] == cfg.orgUnits[..i];
      var cou := cfg.orgUnits[i];
      var ok, sds := CheckDirs(cou);
      if !ok { return Err("duplicate ou dir"); }
      subdirsByOu := subdirsByOu[cou.name := sds];
    }
    assert cfg.orgUnits[..|cfg.orgUnits|] == cfg.orgUnits;
    var ous: seq<OrgUnit> := [];
    for i := 0 to |names|
      invariant Some(ous) == OrgUnitsFor(cfg, byName, subdirsByOu, names[..i])
    {
      assert names[..i + 1][..i] == names[..i];
      var ou := OrgUnitFor(cfg, byName, subdirsByOu, names[i]);
      if ou.None? {
        if OrgUnitsFor(cfg, byName, subdirsByOu, names).Some? { OrgUnitsPrefix(cfg, byName, subdirsByOu, names, i + 1); }
        return Err("missing group for org unit");
      }
      ous := ous + [ou.value];
    }
    assert names[..|names|] == names;
    return Ok(ous);
  }

  // Services

  function AccessPolicyFromString(name: string): Option<AccessPolicy> {
    if name == "perService" then Some(PerService)
    else if name == "allOrgUnits" then Some(AllOrgUnits)
    else if name == "" then Some(PerService)
    else None
  }

  /** The facility of each configured service; a later section wins. */
  function FacilityBySrv(fs: seq<FacilityCfg>): map<string, FacilityCfg> {
    if fs == [] then map[]
    else
      var n := |fs| - 1;
      FacilityBySrv(fs[..n]) + ForServices(fs[n].services, fs[n])
  }

  function ForServices(ss: seq<string>, f: FacilityCfg): map<string, FacilityCfg> {
    map s | s in ss :: f
  }

  lemma ForServicesSnoc(ss: seq<string>, s: string, f: FacilityCfg, before: map<string, FacilityCfg>)
    ensures before + ForServices(ss + [s], f) == (before + ForServices(ss, f))[s := f]
    ensures before + ForServices([], f) == before
  {
  }

  method NewFacilityBySrv(fs: seq<FacilityCfg>) returns (m: map<string, FacilityCfg>)
    ensures m == FacilityBySrv(fs)
  {
    hide ForServices;
    m := map[];
    for i := 0 to |fs|
      invariant m == FacilityBySrv(fs[..i])
    {
      assert fs[..i + 1][..i] == fs[..i];
      ghost var before := m;
      var ss := fs[i].services;
      ForServicesSnoc([], "", fs[i], before);
      for j := 0 to |ss|
        invariant m == before + ForServices(ss[..j], fs[i])
      {
        assert ss[..j + 1] == ss[..j] + [ss[j]];
        ForServicesSnoc(ss[..j], ss[j], fs[i], before);
        m := m[ss[j] := fs[i]];
      }
      assert ss[..|ss|] == ss;
    }
    assert fs[..|fs|] == fs;
  }

  /** Everything that a configured service needs besides its own group. */
  predicate Configurable(cfg: BcpCfg, byName: map<string, UnixGroup>, f: FacilityCfg) {
    && AccessPolicyFromString(f.access).Some?
    && (AccessPolicyFromString(f.access) == Some(AllOrgUnits) ==> cfg.superGroup != "")
    && (cfg.superGroup != "" ==> cfg.superGroup in byName)
    && cfg.SrvPrefix() + f.name + "-" + cfg.opsSuffix in byName
  }

  function ServiceFor(cfg: BcpCfg, byName: map<string, UnixGroup>, f: FacilityCfg, s: string): Option<Service> {
    var access := AccessPolicyFromString(f.access);
    var ops := cfg.SrvPrefix() + f.name + "-" + cfg.opsSuffix;
    if access.None? then None
    else if access.value == AllOrgUnits && cfg.superGroup == "" then None
    else if cfg.SrvPrefix() + s !in byName then None
    else if cfg.superGroup != "" && cfg.superGroup !in byName then None
    else if ops !in byName then None
    else Some(Service(
      s, f.name, access.value,
      if cfg.superGroup != "" then byName[cfg.superGroup] else UnixGroup("", 0),
      byName[cfg.SrvPrefix() + s], byName[ops]))
  }

  function ServicesFor(cfg: BcpCfg, byName: map<string, UnixGroup>, fac: map<string, FacilityCfg>, names: seq<string>): Option<seq<Service>> {
    if names == [] then Some([])
    else
      var n := |names| - 1;
      match ServicesFor(cfg, byName, fac, names[..n])
      case None => None
      case Some(ss) =>
        if names[n] !in fac then Some(ss)
        else
          match ServiceFor(cfg, byName, fac[names[n]], names[n])
          case None => None
          case Some(s) => Some(ss + [s])
  }

  /** The names for which a facility is configured, or those for which none is. */
  function Select(names: seq<string>, fac: map<string, FacilityCfg>, configured: bool): seq<string> {
    if names == [] then []
    else
      var n := |names| - 1;
      Select(names[..n], fac, configured) + if (names[n] in fac) == configured then [names[n]] else []
  }

  lemma {:induction false} ServicesPrefix(
    cfg: BcpCfg, byName: map<string, UnixGroup>, fac: map<string, FacilityCfg>, names: seq<string>, k: nat)
    requires k <= |names| && ServicesFor(cfg, byName, fac, names).Some?
    ensures ServicesFor(cfg, byName, fac, names[..k]).Some?
    decreases |names| - k
  {
    if k == |names| {
      assert names[..k] == names;
    } else {
      ServicesPrefix(cfg, byName, fac, names, k + 1);
      assert names[..k + 1][..k] == names[..k];
    }
  }

  ghost predicate FacilitiesExist(cfg: BcpCfg, facilities: seq<string>) {
    forall i :: 0 <= i < |cfg.facilities| ==> cfg.facilities[i].name in facilities
  }

  /** The services, and the names of those without a facility. */
  method ParseServices(names: seq<string>, facilities: seq<string>, cfg: BcpCfg, byName: map<string, UnixGroup>)
    returns (r: Result<seq<Service>>, unconfigured: seq<string>)
    ensures r.Ok? <==> FacilitiesExist(cfg, facilities) && ServicesFor(cfg, byName, FacilityBySrv(cfg.facilities), names).Some?
    ensures r.Ok? ==> Some(r.value) == ServicesFor(cfg, byName, FacilityBySrv(cfg.facilities), names)
    ensures r.Ok? ==> unconfigured == Select(names, FacilityBySrv(cfg.facilities), false)
  {
    unconfigured := [];
    var haveF := set f | f in facilities;
    for i := 0 to |cfg.facilities|
      invariant forall k :: 0 <= k < i ==> cfg.facilities[k].name in facilities
    {
      if cfg.facilities[i].name !in haveF { return Err("missing group for facility"), []; }
    }
    var fac := NewFacilityBySrv(cfg.facilities);
    var srvs: seq<Service> := [];
    for i := 0 to |names|
      invariant Some(srvs) == ServicesFor(cfg, byName, fac, names[..i])
      invariant unconfigured == Select(names[..i], fac, false)
    {
      assert names[..i + 1][..i] == names[..i];
      var s := names[i];
      if s !in fac {
        unconfigured := unconfigured + [s];
        continue;
      }
      var srv := ServiceFor(cfg, byName, fac[s], s);
      if srv.None? {
        if ServicesFor(cfg, byName, fac, names).Some? { ServicesPrefix(cfg, byName, fac, names, i + 1); }
        return Err("cannot configure service"), [];
      }
      srvs := srvs + [srv.value];
    }
    assert names[..|names|] == names;
    return Ok(srvs), unconfigured;
  }

  function FacilitiesFor(names: seq<string>): (r: seq<OrgFacility>)
    ensures |r| == |names| && forall i :: 0 <= i < |r| ==> r[i] == OrgFacility(names[i])
  {
    seq(|names|, i requires 0 <= i < |names| => OrgFacility(names[i]))
  }

  // The whole organization

  /** What makes New succeed: distinct directory names, a group for every configured
      facility, and for every configured service that has a group a valid access policy,
      the super group where it is needed or named, and an ops group. Neither a service
      nor an org unit can miss its own group. */
  ghost predicate Complete(groups: seq<UnixGroup>, cfg: BcpCfg) {
    && AllDistinct(cfg.orgUnits)
    && FacilitiesExist(cfg, FacilityNames(groups, cfg))
    && forall i :: 0 <= i < |ServiceNames(groups, cfg)| && ServiceNames(groups, cfg)[i] in FacilityBySrv(cfg.facilities) ==>
         Configurable(cfg, ByName(groups), FacilityBySrv(cfg.facilities)[ServiceNames(groups, cfg)[i]])
  }

  method New(groups: seq<UnixGroup>, cfg: BcpCfg) returns (r: Result<Organization>, unconfigured: seq<string>)
    ensures r.Ok? <==> Complete(groups, cfg)
    ensures r.Ok? ==>
              && Some(r.value.orgUnits) == OrgUnitsFor(cfg, ByName(groups), DirsByOu(cfg.orgUnits), OrgUnitNames(groups, cfg))
              && Some(r.value.services) == ServicesFor(cfg, ByName(groups), FacilityBySrv(cfg.facilities), ServiceNames(groups, cfg))
              && r.value.facilities == FacilitiesFor(FacilityNames(groups, cfg))
              && unconfigured == Select(ServiceNames(groups, cfg), FacilityBySrv(cfg.facilities), false)
  {
    hide OrgUnitsFor, ServicesFor, AllDistinct, FacilitiesExist, OrgUnitNames, ServiceNames, FacilityNames, Select, Configurable;
    var ouNames := ParseOrgUnitNames(groups, cfg);
    var srvNames := ParseServiceNames(groups, cfg);
    var facNames := ParseFacilityNames(groups, cfg);
    var byName := NewGroupMap(groups);
    OusHaveGroups(groups, cfg);
    ServicesComplete(groups, cfg);
    var ous := ParseOrgUnits(ouNames, cfg, byName);
    if ous.Err? { return Err(ous.error), []; }
    var services, unconf := ParseServices(srvNames, facNames, cfg, byName);
    if services.Err? { return Err(services.error), []; }
    return Ok(Organization(ous.value, FacilitiesFor(facNames), services.value)), unconf;
  }

  // Stripping and adding the prefix is the identity

  lemma PrefixBack(pfx: string, name: string)
    requires pfx <= name
    ensures pfx + name[|pfx|..] == name
  {
  }

  lemma {:induction false} OuNamesFromGroups(gs: seq<UnixGroup>, all: seq<UnixGroup>, cfg: BcpCfg)
    requires forall g :: g in gs ==> g in all
    ensures forall i :: 0 <= i < |OrgUnitNames(gs, cfg)| ==> cfg.OuPrefix() + OrgUnitNames(gs, cfg)[i] in ByName(all)
  {
    if gs != [] {
      var n := |gs| - 1;
      OuNamesFromGroups(gs[..n], all, cfg);
      ByNameSpec(all);
      assert gs[n] in gs;
      if cfg.OuPrefix() <= gs[n].name { PrefixBack(cfg.OuPrefix(), gs[n].name); }
    }
  }

  lemma {:induction false} SrvNamesFromGroups(gs: seq<UnixGroup>, all: seq<UnixGroup>, cfg: BcpCfg)
    requires forall g :: g in gs ==> g in all
    ensures forall i :: 0 <= i < |ServiceNames(gs, cfg)| ==> cfg.SrvPrefix() + ServiceNames(gs, cfg)[i] in ByName(all)
  {
    if gs != [] {
      var n := |gs| - 1;
      SrvNamesFromGroups(gs[..n], all, cfg);
      ByNameSpec(all);
      assert gs[n] in gs;
      if cfg.SrvPrefix() <= gs[n].name { PrefixBack(cfg.SrvPrefix(), gs[n].name); }
    }
  }

  lemma {:induction false} OusFound(cfg: BcpCfg, byName: map<string, UnixGroup>, dirs: map<string, seq<DirWithPolicy>>, names: seq<string>)
    requires forall i :: 0 <= i < |names| ==> cfg.OuPrefix() + names[i] in byName
    ensures OrgUnitsFor(cfg, byName, dirs, names).Some?
  {
    if names != [] { OusFound(cfg, byName, dirs, names[..|names| - 1]); }
  }

  /** No org unit can miss its group. */
  lemma OusHaveGroups(groups: seq<UnixGroup>, cfg: BcpCfg)
    ensures OrgUnitsFor(cfg, ByName(groups), DirsByOu(cfg.orgUnits), OrgUnitNames(groups, cfg)).Some?
  {
    OuNamesFromGroups(groups, groups, cfg);
    OusFound(cfg, ByName(groups), DirsByOu(cfg.orgUnits), OrgUnitNames(groups, cfg));
  }

  lemma {:induction false} ServicesFoundIff(cfg: BcpCfg, byName: map<string, UnixGroup>, fac: map<string, FacilityCfg>, names: seq<string>)
    requires forall i :: 0 <= i < |names| ==> cfg.SrvPrefix() + names[i] in byName
    ensures ServicesFor(cfg, byName, fac, names).Some? <==>
            forall i :: 0 <= i < |names| && names[i] in fac ==> Configurable(cfg, byName, fac[names[i]])
  {
    hide Configurable, ServiceFor;
    if names != [] {
      var n := |names| - 1;
      ServicesFoundIff(cfg, byName, fac, names[..n]);
      assert forall i :: 0 <= i < n ==> names[..n][i] == names[i];
      if names[n] in fac { ServiceFoundIff(cfg, byName, fac[names[n]], names[n]); }
    }
  }

  lemma ServiceFoundIff(cfg: BcpCfg, byName: map<string, UnixGroup>, f: FacilityCfg, s: string)
    requires cfg.SrvPrefix() + s in byName
    ensures ServiceFor(cfg, byName, f, s).Some? <==> Configurable(cfg, byName, f)
  {
  }

  /** No service can miss its group; all else that can go wrong is in Configurable. */
  lemma ServicesComplete(groups: seq<UnixGroup>, cfg: BcpCfg)
    ensures ServicesFor(cfg, ByName(groups), FacilityBySrv(cfg.facilities), ServiceNames(groups, cfg)).Some? <==>
            forall i :: 0 <= i < |ServiceNames(groups, cfg)| && ServiceNames(groups, cfg)[i] in FacilityBySrv(cfg.facilities) ==>
              Configurable(cfg, ByName(groups), FacilityBySrv(cfg.facilities)[ServiceNames(groups, cfg)[i]])
  {
    SrvNamesFromGroups(groups, groups, cfg);
    ServicesFoundIff(cfg, ByName(groups), FacilityBySrv(cfg.facilities), ServiceNames(groups, cfg));
  }

  // What the lists contain

  function NamesOfServices(ss: seq<Service>): (r: seq<string>)
    ensures |r| == |ss| && forall i :: 0 <= i < |r| ==> r[i] == ss[i].name
  {
    seq(|ss|, i requires 0 <= i < |ss| => ss[i].name)
  }

  /** Services are the configured service names in the order of the groups. */
  lemma {:induction false} ServicesAreConfigured(
    cfg: BcpCfg, byName: map<string, UnixGroup>, fac: map<string, FacilityCfg>, names: seq<string>)
    requires ServicesFor(cfg, byName, fac, names).Some?
    ensures NamesOfServices(ServicesFor(cfg, byName, fac, names).value) == Select(names, fac, true)
  {
    hide ServiceFor;
    if names != [] {
      var n := |names| - 1;
      ServicesAreConfigured(cfg, byName, fac, names[..n]);
      if names[n] in fac { ServiceName(cfg, byName, fac[names[n]], names[n]); }
    }
  }

  /** Every service name is either configured or not, and none is lost. */
  lemma {:induction false} SelectPartition(names: seq<string>, fac: map<string, FacilityCfg>)
    ensures multiset(Select(names, fac, true)) + multiset(Select(names, fac, false)) == multiset(names)
  {
    if names != [] {
      var n := |names| - 1;
      SelectPartition(names[..n], fac);
      assert names == names[..n] + [names[n]];
      var a, b := Select(names[..n], fac, true), Select(names[..n], fac, false);
      if names[n] in fac {
        assert Select(names, fac, true) == a + [names[n]] && Select(names, fac, false) == b;
      } else {
        assert Select(names, fac, true) == a && Select(names, fac, false) == b + [names[n]];
      }
    }
  }

  lemma ServiceName(cfg: BcpCfg, byName: map<string, UnixGroup>, f: FacilityCfg, s: string)
    requires ServiceFor(cfg, byName, f, s).Some?
    ensures ServiceFor(cfg, byName, f, s).value.name == s
  {
  }

  function FacilityOus(ous: seq<OrgUnit>): seq<OrgFacility> {
    if ous == [] then []
    else
      var n := |ous| - 1;
      FacilityOus(ous[..n]) + if ous[n].isFacility then [OrgFacility(ous[n].facility)] else []
  }

  /** The facilities are the org units that are facilities, in order. */
  lemma {:induction false} FacilitiesAreOus(gs: seq<UnixGroup>, cfg: BcpCfg, byName: map<string, UnixGroup>, dirs: map<string, seq<DirWithPolicy>>)
    requires OrgUnitsFor(cfg, byName, dirs, OrgUnitNames(gs, cfg)).Some?
    ensures FacilitiesFor(FacilityNames(gs, cfg)) == FacilityOus(OrgUnitsFor(cfg, byName, dirs, OrgUnitNames(gs, cfg)).value)
  {
    if gs != [] {
      var n := |gs| - 1;
      var less, more := OrgUnitNames(gs[..n], cfg), OrgUnitNames(gs, cfg);
      NamesGrow(gs, cfg);
      hide OrgUnitsFor, OrgUnitFor, FacilityOus, OrgUnitNames, FacilityNames, FacilityNameOf, HasSuffix;
      OrgUnitsPrefix(cfg, byName, dirs, more, |less|);
      assert more[..|less|] == less;
      FacilitiesAreOus(gs[..n], cfg, byName, dirs);
      if cfg.OuPrefix() <= gs[n].name {
        OneOu(cfg, byName, dirs, less, more);
        OneFacility(cfg, byName, dirs, gs[n]);
      }
    }
  }

  lemma NamesGrow(gs: seq<UnixGroup>, cfg: BcpCfg)
    requires gs != []
    ensures var g, less := gs[|gs| - 1], gs[..|gs| - 1];
            && OrgUnitNames(gs, cfg) ==
                 (if cfg.OuPrefix() <= g.name then OrgUnitNames(less, cfg) + [g.name[|cfg.OuPrefix()|..]] else OrgUnitNames(less, cfg))
            && FacilitiesFor(FacilityNames(gs, cfg)) ==
                 (match FacilityNameOf(g, cfg)
                  case Some(f) => FacilitiesFor(FacilityNames(less, cfg)) + [OrgFacility(f)]
                  case None => FacilitiesFor(FacilityNames(less, cfg)))
            && (!(cfg.OuPrefix() <= g.name) ==> FacilityNameOf(g, cfg).None?)
  {
  }

  lemma OneFacility(cfg: BcpCfg, byName: map<string, UnixGroup>, dirs: map<string, seq<DirWithPolicy>>, g: UnixGroup)
    requires cfg.OuPrefix() <= g.name && OrgUnitFor(cfg, byName, dirs, g.name[|cfg.OuPrefix()|..]).Some?
    ensures var ou := OrgUnitFor(cfg, byName, dirs, g.name[|cfg.OuPrefix()|..]).value;
            FacilityNameOf(g, cfg) == if ou.isFacility then Some(ou.facility) else None
  {
  }

  lemma OneOu(cfg: BcpCfg, byName: map<string, UnixGroup>, dirs: map<string, seq<DirWithPolicy>>, less: seq<string>, more: seq<string>)
    requires more != [] && more[..|more| - 1] == less && OrgUnitsFor(cfg, byName, dirs, more).Some?
    ensures OrgUnitsFor(cfg, byName, dirs, less).Some? && OrgUnitFor(cfg, byName, dirs, more[|more| - 1]).Some?
    ensures var ous, ou := OrgUnitsFor(cfg, byName, dirs, less).value, OrgUnitFor(cfg, byName, dirs, more[|more| - 1]).value;
            && OrgUnitsFor(cfg, byName, dirs, more).value == ous + [ou]
            && FacilityOus(ous + [ou]) == FacilityOus(ous) + if ou.isFacility then [OrgFacility(ou.facility)] else []
  {
    var ous, ou := OrgUnitsFor(cfg, byName, dirs, less).value, OrgUnitFor(cfg, byName, dirs, more[|more| - 1]).value;
    assert (ous + [ou])[..|ous|] == ous;
  }

  lemma {:induction false} OuAt(cfg: BcpCfg, byName: map<string, UnixGroup>, dirs: map<string, seq<DirWithPolicy>>, names: seq<string>, i: nat)
    requires OrgUnitsFor(cfg, byName, dirs, names).Some? && i < |names|
    ensures |OrgUnitsFor(cfg, byName, dirs, names).value| == |names|
    ensures Some(OrgUnitsFor(cfg, byName, dirs, names).value[i]) == OrgUnitFor(cfg, byName, dirs, names[i])
  {
    var n := |names| - 1;
    if n == 0 {
      assert names[..0] == [];
    } else {
      OuAt(cfg, byName, dirs, names[..n], if i < n then i else 0);
    }
  }

  lemma {:induction false} ServiceAt(cfg: BcpCfg, byName: map<string, UnixGroup>, fac: map<string, FacilityCfg>, names: seq<string>, s: Service)
    requires ServicesFor(cfg, byName, fac, names).Some? && s in ServicesFor(cfg, byName, fac, names).value
    ensures s.name in names && s.name in fac && ServiceFor(cfg, byName, fac[s.name], s.name) == Some(s)
  {
    hide ServiceFor;
    if names != [] {
      var n := |names| - 1;
      assert names == names[..n] + [names[n]];
      if s in ServicesFor(cfg, byName, fac, names[..n]).value {
        ServiceAt(cfg, byName, fac, names[..n], s);
      } else {
        ServiceName(cfg, byName, fac[names[n]], names[n]);
      }
    }
  }

  lemma {:induction false} OuNameFrom(gs: seq<UnixGroup>, cfg: BcpCfg, n: string) returns (g: UnixGroup)
    requires n in OrgUnitNames(gs, cfg)
    ensures g in gs && g.name == cfg.OuPrefix() + n
  {
    var k := |gs| - 1;
    if n in OrgUnitNames(gs[..k], cfg) {
      g := OuNameFrom(gs[..k], cfg, n);
    } else {
      g := gs[k];
      PrefixBack(cfg.OuPrefix(), g.name);
    }
  }

  lemma {:induction false} SrvNameFrom(gs: seq<UnixGroup>, cfg: BcpCfg, n: string) returns (g: UnixGroup)
    requires n in ServiceNames(gs, cfg)
    ensures g in gs && g.name == cfg.SrvPrefix() + n && IsServiceGroup(g, cfg)
  {
    var k := |gs| - 1;
    if n in ServiceNames(gs[..k], cfg) {
      g := SrvNameFrom(gs[..k], cfg, n);
    } else {
      g := gs[k];
      PrefixBack(cfg.SrvPrefix(), g.name);
    }
  }

  lemma NoDuplicatesSnoc(s: seq<string>, x: string)
    requires NoDuplicates(s) && x !in s
    ensures NoDuplicates(s + [x])
  {
  }

  lemma NewName(gs: seq<UnixGroup>, g: UnixGroup)
    requires gs != [] && DistinctNames(gs) && g in gs[..|gs| - 1]
    ensures DistinctNames(gs[..|gs| - 1]) && g.name != gs[|gs| - 1].name
  {
    var i :| 0 <= i < |gs| - 1 && gs[..|gs| - 1][i] == g;
  }

  /** Distinct group names give distinct org unit and service names. */
  lemma {:induction false} NamesDistinct(gs: seq<UnixGroup>, cfg: BcpCfg)
    requires DistinctNames(gs)
    ensures NoDuplicates(OrgUnitNames(gs, cfg)) && NoDuplicates(ServiceNames(gs, cfg))
  {
    if gs != [] {
      var k := |gs| - 1;
      NamesDistinct(gs[..k], cfg);
      if cfg.OuPrefix() <= gs[k].name {
        var n := gs[k].name[|cfg.OuPrefix()|..];
        PrefixBack(cfg.OuPrefix(), gs[k].name);
        if n in OrgUnitNames(gs[..k], cfg) {
          var g := OuNameFrom(gs[..k], cfg, n);
          NewName(gs, g);
        }
        NoDuplicatesSnoc(OrgUnitNames(gs[..k], cfg), n);
      }
      if IsServiceGroup(gs[k], cfg) {
        var n := gs[k].name[|cfg.SrvPrefix()|..];
        PrefixBack(cfg.SrvPrefix(), gs[k].name);
        if n in ServiceNames(gs[..k], cfg) {
          var g := SrvNameFrom(gs[..k], cfg, n);
          NewName(gs, g);
        }
        NoDuplicatesSnoc(ServiceNames(gs[..k], cfg), n);
      }
    }
  }

  // The facts that the toplevel tree needs

  lemma SameGroup(groups: seq<UnixGroup>, a: UnixGroup, b: UnixGroup)
    requires NoConflicts(groups) && a in groups && b in groups
    ensures a.name == b.name <==> a.gid == b.gid
  {
    NoConflictIn(groups, a, b);
  }

  lemma OpsSuffixed(a: string, suf: string)
    ensures HasSuffix(a + "-" + suf, "-" + suf)
  {
    assert a + "-" + suf == a + ("-" + suf);
  }

  /** A service of the organization has its own group and a different ops group, both
      from the database, and the super group where it needs it. */
  lemma ServiceFacts(groups: seq<UnixGroup>, cfg: BcpCfg, s: Service)
    requires NoConflicts(groups) && Complete(groups, cfg)
    requires var ss := ServicesFor(cfg, ByName(groups), FacilityBySrv(cfg.facilities), ServiceNames(groups, cfg));
             ss.Some? && s in ss.value
    ensures s.serviceGroup in groups && s.serviceGroup.name == cfg.SrvPrefix() + s.name
    ensures s.serviceOpsGroup in groups && s.serviceOpsGroup.name == cfg.SrvPrefix() + s.facility + "-" + cfg.opsSuffix
    ensures s.serviceGroup.gid != s.serviceOpsGroup.gid
    ensures s.access == PerService || s.access == AllOrgUnits
    ensures s.access == AllOrgUnits ==> s.superGroup in groups && s.superGroup.name == cfg.superGroup
    ensures s.name in FacilityBySrv(cfg.facilities) && s.facility == FacilityBySrv(cfg.facilities)[s.name].name
  {
    hide ServicesFor, ServiceNames, Complete, FacilityBySrv, HasSuffix;
    var fac := FacilityBySrv(cfg.facilities);
    ServiceAt(cfg, ByName(groups), fac, ServiceNames(groups, cfg), s);
    ByNameSpec(groups);
    var g := SrvNameFrom(groups, cfg, s.name);
    SameGroup(groups, g, s.serviceGroup);
    SameGroup(groups, s.serviceGroup, s.serviceOpsGroup);
    OpsSuffixed(cfg.SrvPrefix() + s.facility, cfg.opsSuffix);
  }

  /** An org unit of the organization carries its group, and its additional directories
      have distinct names. */
  lemma OuFacts(groups: seq<UnixGroup>, cfg: BcpCfg, i: nat)
    requires Complete(groups, cfg) && i < |OrgUnitNames(groups, cfg)|
    ensures OrgUnitsFor(cfg, ByName(groups), DirsByOu(cfg.orgUnits), OrgUnitNames(groups, cfg)).Some?
    ensures var ous := OrgUnitsFor(cfg, ByName(groups), DirsByOu(cfg.orgUnits), OrgUnitNames(groups, cfg)).value;
            && |ous| == |OrgUnitNames(groups, cfg)| && ous[i].name == OrgUnitNames(groups, cfg)[i]
            && ous[i].orgUnitGroup in groups && ous[i].orgUnitGroup.name == cfg.OuPrefix() + ous[i].name
            && DistinctDirs(ous[i].subdirs)
            && (ous[i].isFacility <==> HasSuffix(ous[i].name, "-" + cfg.facilitySuffix))
            && (ous[i].isFacility ==> ous[i].name == ous[i].facility + "-" + cfg.facilitySuffix)
  {
    hide OrgUnitsFor, OrgUnitNames;
    OusHaveGroups(groups, cfg);
    OuAt(cfg, ByName(groups), DirsByOu(cfg.orgUnits), OrgUnitNames(groups, cfg), i);
    ByNameSpec(groups);
    DirsDistinct(cfg.orgUnits);
    SuffixBack(OrgUnitNames(groups, cfg)[i], cfg.facilitySuffix);
  }

  lemma SuffixBack(o: string, suf: string)
    ensures HasSuffix(o, "-" + suf) ==> o == TrimSuffix(o, "-" + suf) + "-" + suf
  {
    if HasSuffix(o, "-" + suf) {
      assert o == o[..|o| - |"-" + suf|] + ("-" + suf);
      assert TrimSuffix(o, "-" + suf) + ("-" + suf) == TrimSuffix(o, "-" + suf) + "-" + suf;
    }
  }

  lemma {:induction false} DirsDistinct(cous: seq<OrgUnitCfg>)
    requires AllDistinct(cous)
    ensures forall o :: o in DirsByOu(cous) ==> DistinctDirs(DirsByOu(cous)[o])
  {
    if cous != [] { DirsDistinct(cous[..|cous| - 1]); }
  }

  /** An org unit is the facility of a service exactly if its name says so. */
  lemma FacilityByName(ou: OrgUnit, s: Service, suf: string)
    requires ou.isFacility <==> HasSuffix(ou.name, "-" + suf)
    requires ou.isFacility ==> ou.name == ou.facility + "-" + suf
    ensures ou.isFacility && s.facility == ou.facility <==> ou.name == s.facility + "-" + suf
  {
    OpsSuffixed(s.facility, suf);
    if ou.isFacility && ou.name == s.facility + "-" + suf {
      assert |ou.facility| == |s.facility|;
      assert ou.facility == ou.name[..|ou.facility|] == s.facility;
    }
  }
}
