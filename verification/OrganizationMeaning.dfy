/** What New returns, said of the groups and the configuration alone: which services and org
    units there are, with which groups, policies and directories, and when it fails. */
module OrganizationMeaning {
  import opened Strings
  import opened Sharing
  import opened Organization
  import opened Groups
  import opened Bcp

  // Names

  /** `s` is something followed by `suf`. */
  ghost predicate EndsWith(s: string, suf: string) {
    exists pre: string :: s == pre + suf
  }

  lemma SuffixMeans(s: string, suf: string)
    ensures HasSuffix(s, suf) <==> EndsWith(s, suf)
    ensures HasSuffix(s, suf) ==> s == TrimSuffix(s, suf) + suf
    ensures forall pre: string :: s == pre + suf ==> TrimSuffix(s, suf) == pre
  {
    if HasSuffix(s, suf) { assert s == s[..|s| - |suf|] + suf; }
  }

  ghost predicate NamesService(g: UnixGroup, cfg: BcpCfg, n: string) {
    g.name == cfg.servicePrefix + "_" + n && !EndsWith(g.name, "-" + cfg.opsSuffix)
  }

  ghost predicate NamesOrgUnit(g: UnixGroup, cfg: BcpCfg, n: string) {
    g.name == cfg.orgUnitPrefix + "_" + n
  }

  lemma {:induction false} InServiceNames(gs: seq<UnixGroup>, cfg: BcpCfg, n: string)
    ensures n in ServiceNames(gs, cfg) <==> exists g :: g in gs && NamesService(g, cfg, n)
  {
    if gs != [] {
      var k := |gs| - 1;
      assert gs == gs[..k] + [gs[k]];
      InServiceNames(gs[..k], cfg, n);
      SuffixMeans(gs[k].name, "-" + cfg.opsSuffix);
      if cfg.SrvPrefix() <= gs[k].name { PrefixBack(cfg.SrvPrefix(), gs[k].name); }
      assert NamesService(gs[k], cfg, n) ==> (cfg.SrvPrefix() + n)[|cfg.SrvPrefix()|..] == n;
    }
  }

  lemma {:induction false} InOuNames(gs: seq<UnixGroup>, cfg: BcpCfg, n: string)
    ensures n in OrgUnitNames(gs, cfg) <==> exists g :: g in gs && NamesOrgUnit(g, cfg, n)
  {
    if gs != [] {
      var k := |gs| - 1;
      assert gs == gs[..k] + [gs[k]];
      InOuNames(gs[..k], cfg, n);
      if cfg.OuPrefix() <= gs[k].name { PrefixBack(cfg.OuPrefix(), gs[k].name); }
      assert NamesOrgUnit(gs[k], cfg, n) ==> (cfg.OuPrefix() + n)[|cfg.OuPrefix()|..] == n;
    }
  }

  lemma {:induction false} InFacilityNames(gs: seq<UnixGroup>, cfg: BcpCfg, f: string)
    ensures f in FacilityNames(gs, cfg) <==> exists g :: g in gs && NamesOrgUnit(g, cfg, f + "-" + cfg.facilitySuffix)
  {
    if gs != [] {
      var k := |gs| - 1;
      assert gs == gs[..k] + [gs[k]];
      InFacilityNames(gs[..k], cfg, f);
      OneFacilityName(gs[k], cfg, f);
    }
  }

  lemma OneFacilityName(g: UnixGroup, cfg: BcpCfg, f: string)
    ensures FacilityNameOf(g, cfg) == Some(f) <==> NamesOrgUnit(g, cfg, f + "-" + cfg.facilitySuffix)
  {
    var pfx, suf := cfg.OuPrefix(), "-" + cfg.facilitySuffix;
    assert f + "-" + cfg.facilitySuffix == f + suf;
    if pfx <= g.name {
      PrefixBack(pfx, g.name);
      SuffixMeans(g.name[|pfx|..], suf);
    }
    assert NamesOrgUnit(g, cfg, f + suf) ==> (pfx + (f + suf))[|pfx|..] == f + suf && EndsWith(f + suf, suf);
  }

  // Sections of the configuration

  /** The last section that lists the service. */
  ghost predicate LastListing(facs: seq<FacilityCfg>, n: string, k: nat) {
    k < |facs| && n in facs[k].services && forall m :: k < m < |facs| ==> n !in facs[m].services
  }

  lemma ListingBefore(facs: seq<FacilityCfg>, n: string, k: nat)
    requires facs != [] && n !in facs[|facs| - 1].services
    ensures LastListing(facs[..|facs| - 1], n, k) <==> LastListing(facs, n, k)
  {
    assert forall m :: 0 <= m < |facs| - 1 ==> facs[..|facs| - 1][m] == facs[m];
  }

  ghost predicate Lists(facs: seq<FacilityCfg>, n: string) {
    exists k :: 0 <= k < |facs| && n in facs[k].services
  }

  lemma ListsBefore(facs: seq<FacilityCfg>, n: string)
    requires facs != []
    ensures Lists(facs, n) <==> n in facs[|facs| - 1].services || Lists(facs[..|facs| - 1], n)
  {
    assert forall m :: 0 <= m < |facs| - 1 ==> facs[..|facs| - 1][m] == facs[m];
  }

  lemma OneSectionMore(facs: seq<FacilityCfg>, n: string)
    requires facs != []
    ensures var l := |facs| - 1;
            && (n in FacilityBySrv(facs) <==> n in facs[l].services || n in FacilityBySrv(facs[..l]))
            && (n in FacilityBySrv(facs) ==>
                  FacilityBySrv(facs)[n] == if n in facs[l].services then facs[l] else FacilityBySrv(facs[..l])[n])
  {
  }

  lemma {:induction false} SectionListed(facs: seq<FacilityCfg>, n: string)
    ensures n in FacilityBySrv(facs) <==> Lists(facs, n)
  {
    if facs != [] {
      hide FacilityBySrv, Lists;
      SectionListed(facs[..|facs| - 1], n);
      OneSectionMore(facs, n);
      ListsBefore(facs, n);
    }
  }

  lemma {:induction false} LastListed(facs: seq<FacilityCfg>, n: string, k: nat)
    requires LastListing(facs, n, k)
    ensures n in FacilityBySrv(facs) && FacilityBySrv(facs)[n] == facs[k]
  {
    hide FacilityBySrv;
    var l := |facs| - 1;
    OneSectionMore(facs, n);
    if k < l {
      ListingBefore(facs, n, k);
      LastListed(facs[..l], n, k);
    }
  }

  lemma {:induction false} SomeLastListing(facs: seq<FacilityCfg>, n: string, k: nat) returns (l: nat)
    requires k < |facs| && n in facs[k].services
    ensures LastListing(facs, n, l)
    decreases |facs| - k
  {
    if m :| k < m < |facs| && n in facs[m].services { l := SomeLastListing(facs, n, m); } else { l := k; }
  }

  lemma FacilityIsLast(facs: seq<FacilityCfg>, n: string)
    ensures n in FacilityBySrv(facs) <==> exists k: nat :: LastListing(facs, n, k)
    ensures forall k: nat :: LastListing(facs, n, k) ==> n in FacilityBySrv(facs) && FacilityBySrv(facs)[n] == facs[k]
  {
    hide FacilityBySrv;
    SectionListed(facs, n);
    if k :| 0 <= k < |facs| && n in facs[k].services { var l := SomeLastListing(facs, n, k); }
    forall k: nat | LastListing(facs, n, k) ensures n in FacilityBySrv(facs) && FacilityBySrv(facs)[n] == facs[k] {
      LastListed(facs, n, k);
    }
  }

  /** The last section of the org unit. */
  ghost predicate LastSection(cous: seq<OrgUnitCfg>, n: string, k: nat) {
    k < |cous| && cous[k].name == n && forall m :: k < m < |cous| ==> cous[m].name != n
  }

  /** First the directories with their policies, then the old-style ones for the group. */
  ghost predicate ConfiguredDirs(ds: seq<DirWithPolicy>, cou: OrgUnitCfg) {
    var k := |cou.subdirs|;
    && |ds| == k + |cou.extraDirs| && ds[..k] == cou.subdirs
    && forall i :: 0 <= i < |cou.extraDirs| ==> ds[k + i] == DirWithPolicy(cou.extraDirs[i], GroupPolicy)
  }

  lemma SectionBefore(cous: seq<OrgUnitCfg>, n: string, k: nat)
    requires cous != [] && cous[|cous| - 1].name != n
    ensures LastSection(cous[..|cous| - 1], n, k) <==> LastSection(cous, n, k)
    ensures LastSection(cous, n, k) ==> k < |cous| - 1 && cous[..|cous| - 1][k] == cous[k]
  {
    assert forall m :: 0 <= m < |cous| - 1 ==> cous[..|cous| - 1][m] == cous[m];
  }

  lemma OnlyLastSection(cous: seq<OrgUnitCfg>, n: string)
    requires cous != [] && cous[|cous| - 1].name == n
    ensures LastSection(cous, n, |cous| - 1) && forall k: nat :: LastSection(cous, n, k) ==> k == |cous| - 1
  {
  }

  lemma OwnDirs(cou: OrgUnitCfg)
    ensures ConfiguredDirs(DirsOf(cou), cou)
  {
  }

  lemma {:induction false} DirsAreLast(cous: seq<OrgUnitCfg>, n: string)
    ensures n in DirsByOu(cous) <==> exists k: nat :: LastSection(cous, n, k)
    ensures forall k: nat :: LastSection(cous, n, k) ==> n in DirsByOu(cous) && ConfiguredDirs(DirsByOu(cous)[n], cous[k])
  {
    if cous != [] {
      hide LastSection, ConfiguredDirs, DirsOf;
      var l := |cous| - 1;
      DirsAreLast(cous[..l], n);
      if cous[l].name == n {
        OnlyLastSection(cous, n);
        OwnDirs(cous[l]);
      } else {
        forall k: nat ensures LastSection(cous[..l], n, k) <==> LastSection(cous, n, k) {
          SectionBefore(cous, n, k);
        }
        forall k: nat | LastSection(cous, n, k) ensures n in DirsByOu(cous) && ConfiguredDirs(DirsByOu(cous)[n], cous[k]) {
          SectionBefore(cous, n, k);
        }
      }
    }
  }

  // Services

  ghost predicate PolicyMeant(a: AccessPolicy, name: string) {
    && (a == AllOrgUnits <==> name == "allOrgUnits")
    && (a == PerService <==> name == "perService" || name == "")
  }

  lemma PolicyMeans(name: string)
    ensures AccessPolicyFromString(name).Some? <==> name == "perService" || name == "allOrgUnits" || name == ""
    ensures AccessPolicyFromString(name).Some? ==> PolicyMeant(AccessPolicyFromString(name).value, name)
  {
  }

  /** The service that the groups and the last section listing its name describe. */
  ghost predicate ServiceMeant(groups: seq<UnixGroup>, cfg: BcpCfg, s: Service, k: nat) {
    && LastListing(cfg.facilities, s.name, k)
    && s.facility == cfg.facilities[k].name && PolicyMeant(s.access, cfg.facilities[k].access)
    && s.serviceGroup in groups && NamesService(s.serviceGroup, cfg, s.name)
    && s.serviceOpsGroup in groups
    && s.serviceOpsGroup.name == cfg.servicePrefix + "_" + cfg.facilities[k].name + "-" + cfg.opsSuffix
    && (if cfg.superGroup == "" then s.superGroup == UnixGroup("", 0)
        else s.superGroup in groups && s.superGroup.name == cfg.superGroup)
  }

  lemma SameNameSameGroup(groups: seq<UnixGroup>, a: UnixGroup, b: UnixGroup)
    requires DistinctNames(groups) && a in groups && b in groups && a.name == b.name
    ensures a == b
  {
    LookupFinds(groups, a);
    LookupFinds(groups, b);
  }

  lemma ServiceIsMeant(groups: seq<UnixGroup>, cfg: BcpCfg, n: string, k: nat)
    requires DistinctNames(groups) && LastListing(cfg.facilities, n, k) && n in ServiceNames(groups, cfg)
    requires ServiceFor(cfg, ByName(groups), cfg.facilities[k], n).Some?
    ensures ServiceMeant(groups, cfg, ServiceFor(cfg, ByName(groups), cfg.facilities[k], n).value, k)
  {
    hide ServiceNames, ByName, DistinctNames, EndsWith;
    ByNameSpec(groups);
    InServiceNames(groups, cfg, n);
    PolicyMeans(cfg.facilities[k].access);
    var g :| g in groups && NamesService(g, cfg, n);
    var s := ServiceFor(cfg, ByName(groups), cfg.facilities[k], n).value;
    SameNameSameGroup(groups, g, s.serviceGroup);
  }

  lemma MeantIsUnique(groups: seq<UnixGroup>, cfg: BcpCfg, s: Service, t: Service, k: nat, l: nat)
    requires DistinctNames(groups) && ServiceMeant(groups, cfg, s, k) && ServiceMeant(groups, cfg, t, l) && s.name == t.name
    requires s.access != Unspecified && t.access != Unspecified
    ensures s == t
  {
    hide EndsWith, DistinctNames;
    assert k == l;
    SameNameSameGroup(groups, s.serviceGroup, t.serviceGroup);
    SameNameSameGroup(groups, s.serviceOpsGroup, t.serviceOpsGroup);
    if cfg.superGroup != "" { SameNameSameGroup(groups, s.superGroup, t.superGroup); }
  }

  lemma {:induction false} ServiceListed(cfg: BcpCfg, byName: map<string, UnixGroup>, fac: map<string, FacilityCfg>, names: seq<string>, n: string)
    requires ServicesFor(cfg, byName, fac, names).Some? && n in names && n in fac
    ensures ServiceFor(cfg, byName, fac[n], n).Some?
    ensures ServiceFor(cfg, byName, fac[n], n).value in ServicesFor(cfg, byName, fac, names).value
  {
    hide ServiceFor;
    var k := |names| - 1;
    assert names == names[..k] + [names[k]];
    if n in names[..k] { ServiceListed(cfg, byName, fac, names[..k], n); }
  }

  /** The services are exactly those. */
  lemma ServicesMean(groups: seq<UnixGroup>, cfg: BcpCfg, services: seq<Service>)
    requires DistinctNames(groups)
    requires Some(services) == ServicesFor(cfg, ByName(groups), FacilityBySrv(cfg.facilities), ServiceNames(groups, cfg))
    ensures forall s :: s in services <==> s.access != Unspecified && exists k: nat :: ServiceMeant(groups, cfg, s, k)
  {
    hide ServicesFor, ServiceFor, ServiceNames, ByName, FacilityBySrv, ServiceMeant, DistinctNames, LastListing;
    var fac, names := FacilityBySrv(cfg.facilities), ServiceNames(groups, cfg);
    forall s | s in services ensures s.access != Unspecified && exists k: nat :: ServiceMeant(groups, cfg, s, k) {
      ServiceAt(cfg, ByName(groups), fac, names, s);
      FacilityIsLast(cfg.facilities, s.name);
      var k: nat :| LastListing(cfg.facilities, s.name, k);
      ServiceIsMeant(groups, cfg, s.name, k);
      NotUnspecified(cfg, ByName(groups), fac[s.name], s.name);
    }
    forall s: Service, k: nat | s.access != Unspecified && ServiceMeant(groups, cfg, s, k) ensures s in services {
      MeantListed(groups, cfg, s, k);
      FacilityIsLast(cfg.facilities, s.name);
      ServiceListed(cfg, ByName(groups), fac, names, s.name);
      var t := ServiceFor(cfg, ByName(groups), fac[s.name], s.name).value;
      ServiceIsMeant(groups, cfg, s.name, k);
      NotUnspecified(cfg, ByName(groups), fac[s.name], s.name);
      ServiceName(cfg, ByName(groups), fac[s.name], s.name);
      MeantIsUnique(groups, cfg, s, t, k, k);
    }
  }

  lemma NotUnspecified(cfg: BcpCfg, byName: map<string, UnixGroup>, f: FacilityCfg, n: string)
    requires ServiceFor(cfg, byName, f, n).Some?
    ensures ServiceFor(cfg, byName, f, n).value.access != Unspecified
  {
  }

  lemma MeantListed(groups: seq<UnixGroup>, cfg: BcpCfg, s: Service, k: nat)
    requires ServiceMeant(groups, cfg, s, k)
    ensures LastListing(cfg.facilities, s.name, k) && s.name in ServiceNames(groups, cfg)
  {
    hide EndsWith;
    InServiceNames(groups, cfg, s.name);
  }

  /** A service name is reported as unconfigured exactly if no section lists it. */
  lemma {:induction false} UnconfiguredMeans(groups: seq<UnixGroup>, cfg: BcpCfg, names: seq<string>, n: string)
    ensures n in Select(names, FacilityBySrv(cfg.facilities), false) <==>
            n in names && forall k :: 0 <= k < |cfg.facilities| ==> n !in cfg.facilities[k].services
  {
    hide FacilityBySrv;
    SectionListed(cfg.facilities, n);
    if names != [] {
      var k := |names| - 1;
      assert names == names[..k] + [names[k]];
      UnconfiguredMeans(groups, cfg, names[..k], n);
    }
  }

  // Org units

  /** The org unit that a group and the last section of its name describe. */
  ghost predicate OuMeant(groups: seq<UnixGroup>, cfg: BcpCfg, ou: OrgUnit) {
    && ou.orgUnitGroup in groups && NamesOrgUnit(ou.orgUnitGroup, cfg, ou.name)
    && (ou.isFacility <==> EndsWith(ou.name, "-" + cfg.facilitySuffix))
    && (if ou.isFacility then ou.name == ou.facility + "-" + cfg.facilitySuffix else ou.facility == "")
    && (forall k: nat :: LastSection(cfg.orgUnits, ou.name, k) ==> ConfiguredDirs(ou.subdirs, cfg.orgUnits[k]))
    && ((forall k :: 0 <= k < |cfg.orgUnits| ==> cfg.orgUnits[k].name != ou.name) ==> ou.subdirs == [])
  }

  lemma OuIsMeant(groups: seq<UnixGroup>, cfg: BcpCfg, n: string)
    requires OrgUnitFor(cfg, ByName(groups), DirsByOu(cfg.orgUnits), n).Some?
    ensures OuMeant(groups, cfg, OrgUnitFor(cfg, ByName(groups), DirsByOu(cfg.orgUnits), n).value)
  {
    hide ByName, DirsByOu, ConfiguredDirs, HasSuffix, TrimSuffix, EndsWith;
    ByNameSpec(groups);
    DirsAreLast(cfg.orgUnits, n);
    SuffixMeans(n, "-" + cfg.facilitySuffix);
    var f := TrimSuffix(n, "-" + cfg.facilitySuffix);
    assert f + ("-" + cfg.facilitySuffix) == f + "-" + cfg.facilitySuffix;
  }

  lemma {:induction false} SomeLastSection(cous: seq<OrgUnitCfg>, n: string, k: nat) returns (l: nat)
    requires k < |cous| && cous[k].name == n
    ensures LastSection(cous, n, l)
    decreases |cous| - k
  {
    if m :| k < m < |cous| && cous[m].name == n {
      l := SomeLastSection(cous, n, m);
    } else {
      l := k;
    }
  }

  lemma SameDirs(groups: seq<UnixGroup>, cfg: BcpCfg, a: OrgUnit, b: OrgUnit)
    requires OuMeant(groups, cfg, a) && OuMeant(groups, cfg, b) && a.name == b.name
    ensures a.subdirs == b.subdirs
  {
    hide EndsWith, ConfiguredDirs;
    if k :| 0 <= k < |cfg.orgUnits| && cfg.orgUnits[k].name == a.name {
      var l := SomeLastSection(cfg.orgUnits, a.name, k);
      DirsAreConfigured(cfg.orgUnits[l], a.subdirs);
      DirsAreConfigured(cfg.orgUnits[l], b.subdirs);
    }
  }

  lemma OuUnique(groups: seq<UnixGroup>, cfg: BcpCfg, a: OrgUnit, b: OrgUnit)
    requires DistinctNames(groups) && OuMeant(groups, cfg, a) && OuMeant(groups, cfg, b) && a.name == b.name
    ensures a == b
  {
    SameDirs(groups, cfg, a, b);
    hide EndsWith, DistinctNames, LastSection, ConfiguredDirs;
    SameNameSameGroup(groups, a.orgUnitGroup, b.orgUnitGroup);
    var suf := "-" + cfg.facilitySuffix;
    assert a.facility + "-" + cfg.facilitySuffix == a.facility + suf && b.facility + "-" + cfg.facilitySuffix == b.facility + suf;
    if a.isFacility { SuffixMeans(a.name, suf); }
  }

  /** The org units are exactly those. */
  lemma OusMean(groups: seq<UnixGroup>, cfg: BcpCfg, ous: seq<OrgUnit>)
    requires DistinctNames(groups)
    requires Some(ous) == OrgUnitsFor(cfg, ByName(groups), DirsByOu(cfg.orgUnits), OrgUnitNames(groups, cfg))
    ensures forall ou :: ou in ous <==> OuMeant(groups, cfg, ou)
  {
    hide OrgUnitsFor, OrgUnitFor, OrgUnitNames, ByName, DirsByOu, OuMeant, DistinctNames;
    var names := OrgUnitNames(groups, cfg);
    OuLength(groups, cfg);
    forall ou | ou in ous ensures OuMeant(groups, cfg, ou) {
      var i :| 0 <= i < |ous| && ous[i] == ou;
      OuAt(cfg, ByName(groups), DirsByOu(cfg.orgUnits), names, i);
      OuIsMeant(groups, cfg, names[i]);
    }
    forall ou | OuMeant(groups, cfg, ou) ensures ou in ous {
      var i := OuMeantListed(groups, cfg, ou);
      OuAt(cfg, ByName(groups), DirsByOu(cfg.orgUnits), names, i);
      OuIsMeant(groups, cfg, names[i]);
      OuForName(cfg, ByName(groups), DirsByOu(cfg.orgUnits), names[i]);
      OuUnique(groups, cfg, ou, ous[i]);
    }
  }

  lemma OuForName(cfg: BcpCfg, byName: map<string, UnixGroup>, dirs: map<string, seq<DirWithPolicy>>, n: string)
    requires OrgUnitFor(cfg, byName, dirs, n).Some?
    ensures OrgUnitFor(cfg, byName, dirs, n).value.name == n
  {
  }

  lemma OuLength(groups: seq<UnixGroup>, cfg: BcpCfg)
    ensures OrgUnitsFor(cfg, ByName(groups), DirsByOu(cfg.orgUnits), OrgUnitNames(groups, cfg)).Some?
    ensures |OrgUnitsFor(cfg, ByName(groups), DirsByOu(cfg.orgUnits), OrgUnitNames(groups, cfg)).value| == |OrgUnitNames(groups, cfg)|
  {
    hide OrgUnitNames, ByName, DirsByOu;
    OusHaveGroups(groups, cfg);
    var names := OrgUnitNames(groups, cfg);
    if names != [] { OuAt(cfg, ByName(groups), DirsByOu(cfg.orgUnits), names, 0); }
  }

  lemma OuMeantListed(groups: seq<UnixGroup>, cfg: BcpCfg, ou: OrgUnit) returns (i: nat)
    requires OuMeant(groups, cfg, ou)
    ensures i < |OrgUnitNames(groups, cfg)| && OrgUnitNames(groups, cfg)[i] == ou.name
  {
    hide ConfiguredDirs, EndsWith;
    InOuNames(groups, cfg, ou.name);
    var names := OrgUnitNames(groups, cfg);
    i :| 0 <= i < |names| && names[i] == ou.name;
  }

  // Order

  lemma {:induction false} OuNamePlace(gs: seq<UnixGroup>, cfg: BcpCfg, i: nat) returns (p: nat)
    requires i < |OrgUnitNames(gs, cfg)|
    ensures p < |gs| && NamesOrgUnit(gs[p], cfg, OrgUnitNames(gs, cfg)[i])
    ensures |OrgUnitNames(gs[..p], cfg)| == i
  {
    var k := |gs| - 1;
    if i < |OrgUnitNames(gs[..k], cfg)| {
      p := OuNamePlace(gs[..k], cfg, i);
      assert gs[..k][..p] == gs[..p];
    } else {
      p := k;
      PrefixBack(cfg.OuPrefix(), gs[k].name);
    }
  }

  lemma {:induction false} OuNamesGrow(gs: seq<UnixGroup>, cfg: BcpCfg, p: nat, q: nat)
    requires p <= q <= |gs|
    ensures |OrgUnitNames(gs[..p], cfg)| <= |OrgUnitNames(gs[..q], cfg)|
    decreases q - p
  {
    if p < q {
      OuNamesGrow(gs, cfg, p, q - 1);
      assert gs[..q][..q - 1] == gs[..q - 1];
    }
  }

  /** The org units come in the order of their groups. */
  lemma OusInOrder(groups: seq<UnixGroup>, cfg: BcpCfg, ous: seq<OrgUnit>, i: nat, j: nat) returns (p: nat, q: nat)
    requires DistinctNames(groups) && i < j < |ous|
    requires Some(ous) == OrgUnitsFor(cfg, ByName(groups), DirsByOu(cfg.orgUnits), OrgUnitNames(groups, cfg))
    ensures p < q < |groups| && groups[p] == ous[i].orgUnitGroup && groups[q] == ous[j].orgUnitGroup
  {
    hide OrgUnitsFor, OrgUnitFor, ByName, DirsByOu, OrgUnitNames, DistinctNames;
    var names := OrgUnitNames(groups, cfg);
    OuLength(groups, cfg);
    p := OuNamePlace(groups, cfg, i);
    q := OuNamePlace(groups, cfg, j);
    if q <= p { OuNamesGrow(groups, cfg, q, p); }
    OuGroup(groups, cfg, ous, i, p);
    OuGroup(groups, cfg, ous, j, q);
  }

  lemma OuGroup(groups: seq<UnixGroup>, cfg: BcpCfg, ous: seq<OrgUnit>, i: nat, p: nat)
    requires DistinctNames(groups) && i < |OrgUnitNames(groups, cfg)| == |ous|
    requires Some(ous) == OrgUnitsFor(cfg, ByName(groups), DirsByOu(cfg.orgUnits), OrgUnitNames(groups, cfg))
    requires p < |groups| && NamesOrgUnit(groups[p], cfg, OrgUnitNames(groups, cfg)[i])
    ensures groups[p] == ous[i].orgUnitGroup
  {
    hide OrgUnitsFor, ByName, DirsByOu, OrgUnitNames, DistinctNames;
    ByNameSpec(groups);
    OuAt(cfg, ByName(groups), DirsByOu(cfg.orgUnits), OrgUnitNames(groups, cfg), i);
    SameNameSameGroup(groups, groups[p], ous[i].orgUnitGroup);
  }

  lemma {:induction false} ServiceNamePlace(gs: seq<UnixGroup>, cfg: BcpCfg, i: nat) returns (p: nat)
    requires i < |ServiceNames(gs, cfg)|
    ensures p < |gs| && NamesService(gs[p], cfg, ServiceNames(gs, cfg)[i])
    ensures |ServiceNames(gs[..p], cfg)| == i
  {
    var k := |gs| - 1;
    if i < |ServiceNames(gs[..k], cfg)| {
      p := ServiceNamePlace(gs[..k], cfg, i);
      assert gs[..k][..p] == gs[..p];
    } else {
      p := k;
      PrefixBack(cfg.SrvPrefix(), gs[k].name);
      SuffixMeans(gs[k].name, "-" + cfg.opsSuffix);
    }
  }

  lemma {:induction false} ServiceNamesGrow(gs: seq<UnixGroup>, cfg: BcpCfg, p: nat, q: nat)
    requires p <= q <= |gs|
    ensures |ServiceNames(gs[..p], cfg)| <= |ServiceNames(gs[..q], cfg)|
    decreases q - p
  {
    if p < q {
      ServiceNamesGrow(gs, cfg, p, q - 1);
      assert gs[..q][..q - 1] == gs[..q - 1];
    }
  }

  /** Services keep the order of the names. */
  lemma {:induction false} ServicePlace(
    cfg: BcpCfg, byName: map<string, UnixGroup>, fac: map<string, FacilityCfg>, names: seq<string>, i: nat) returns (p: nat)
    requires ServicesFor(cfg, byName, fac, names).Some? && i < |ServicesFor(cfg, byName, fac, names).value|
    ensures p < |names| && names[p] == ServicesFor(cfg, byName, fac, names).value[i].name
    ensures ServicesFor(cfg, byName, fac, names[..p]).Some? && |ServicesFor(cfg, byName, fac, names[..p]).value| == i
  {
    hide ServiceFor;
    var k := |names| - 1;
    if i < |ServicesFor(cfg, byName, fac, names[..k]).value| {
      p := ServicePlace(cfg, byName, fac, names[..k], i);
      assert names[..k][..p] == names[..p];
    } else {
      p := k;
      ServiceName(cfg, byName, fac[names[k]], names[k]);
    }
  }

  lemma {:induction false} ServicesGrow(
    cfg: BcpCfg, byName: map<string, UnixGroup>, fac: map<string, FacilityCfg>, names: seq<string>, p: nat, q: nat)
    requires p <= q <= |names| && ServicesFor(cfg, byName, fac, names).Some?
    ensures ServicesFor(cfg, byName, fac, names[..p]).Some? && ServicesFor(cfg, byName, fac, names[..q]).Some?
    ensures |ServicesFor(cfg, byName, fac, names[..p]).value| <= |ServicesFor(cfg, byName, fac, names[..q]).value|
    decreases q - p
  {
    hide ServiceFor;
    ServicesPrefix(cfg, byName, fac, names, p);
    ServicesPrefix(cfg, byName, fac, names, q);
    if p < q {
      ServicesGrow(cfg, byName, fac, names, p, q - 1);
      assert names[..q][..q - 1] == names[..q - 1];
    }
  }

  /** The services come in the order of their groups. */
  lemma ServicesInOrder(groups: seq<UnixGroup>, cfg: BcpCfg, services: seq<Service>, i: nat, j: nat) returns (p: nat, q: nat)
    requires DistinctNames(groups) && i < j < |services|
    requires Some(services) == ServicesFor(cfg, ByName(groups), FacilityBySrv(cfg.facilities), ServiceNames(groups, cfg))
    ensures p < q < |groups| && groups[p] == services[i].serviceGroup && groups[q] == services[j].serviceGroup
  {
    hide ServicesFor, ServiceFor, ServiceNames, ByName, FacilityBySrv, DistinctNames, ServiceMeant;
    var names, fac := ServiceNames(groups, cfg), FacilityBySrv(cfg.facilities);
    var a := ServicePlace(cfg, ByName(groups), fac, names, i);
    var b := ServicePlace(cfg, ByName(groups), fac, names, j);
    if b <= a { ServicesGrow(cfg, ByName(groups), fac, names, b, a); }
    p := ServiceNamePlace(groups, cfg, a);
    q := ServiceNamePlace(groups, cfg, b);
    if q <= p { ServiceNamesGrow(groups, cfg, q, p); }
    ServicesMean(groups, cfg, services);
    ServiceGroupAt(groups, cfg, services[i], p);
    ServiceGroupAt(groups, cfg, services[j], q);
  }

  lemma ServiceGroupAt(groups: seq<UnixGroup>, cfg: BcpCfg, s: Service, p: nat)
    requires DistinctNames(groups) && (exists k: nat :: ServiceMeant(groups, cfg, s, k)) && p < |groups| && NamesService(groups[p], cfg, s.name)
    ensures groups[p] == s.serviceGroup
  {
    hide DistinctNames, EndsWith;
    SameNameSameGroup(groups, groups[p], s.serviceGroup);
  }

  // Success

  /** A service group whose section can be used. */
  ghost predicate Usable(groups: seq<UnixGroup>, cfg: BcpCfg, f: FacilityCfg) {
    && (f.access == "perService" || f.access == "allOrgUnits" || f.access == "")
    && (f.access == "allOrgUnits" ==> cfg.superGroup != "")
    && (cfg.superGroup != "" ==> exists g :: g in groups && g.name == cfg.superGroup)
    && exists g :: g in groups && g.name == cfg.servicePrefix + "_" + f.name + "-" + cfg.opsSuffix
  }

  lemma InByName(groups: seq<UnixGroup>, n: string)
    ensures n in ByName(groups) <==> exists g :: g in groups && g.name == n
  {
    ByNameSpec(groups);
  }

  lemma UsableMeans(groups: seq<UnixGroup>, cfg: BcpCfg, f: FacilityCfg)
    ensures Configurable(cfg, ByName(groups), f) <==> Usable(groups, cfg, f)
  {
    hide ByName;
    InByName(groups, cfg.superGroup);
    InByName(groups, cfg.servicePrefix + "_" + f.name + "-" + cfg.opsSuffix);
    PolicyMeans(f.access);
  }

  /** No org unit section names a directory twice. */
  ghost predicate NoDirTwice(cfg: BcpCfg) {
    forall k, ds: seq<DirWithPolicy> :: 0 <= k < |cfg.orgUnits| && ConfiguredDirs(ds, cfg.orgUnits[k]) ==>
      forall i, j :: 0 <= i < j < |ds| ==> ds[i].name != ds[j].name
  }

  /** Every facility section has its org unit group. */
  ghost predicate FacilitiesGrouped(groups: seq<UnixGroup>, cfg: BcpCfg) {
    forall k :: 0 <= k < |cfg.facilities| ==> FacilityGrouped(groups, cfg, cfg.facilities[k].name)
  }

  ghost predicate FacilityGrouped(groups: seq<UnixGroup>, cfg: BcpCfg, f: string) {
    exists g :: g in groups && NamesOrgUnit(g, cfg, f + "-" + cfg.facilitySuffix)
  }

  /** The section of every service group is usable. */
  ghost predicate SectionsUsable(groups: seq<UnixGroup>, cfg: BcpCfg) {
    forall g, n, k: nat :: g in groups && NamesService(g, cfg, n) && LastListing(cfg.facilities, n, k) ==>
      Usable(groups, cfg, cfg.facilities[k])
  }

  /** New succeeds exactly then. */
  lemma SuccessMeans(groups: seq<UnixGroup>, cfg: BcpCfg)
    ensures Complete(groups, cfg) <==> NoDirTwice(cfg) && FacilitiesGrouped(groups, cfg) && SectionsUsable(groups, cfg)
  {
    hide ServiceNames, FacilityNames, FacilityBySrv, Configurable, NoDirTwice, SectionsUsable, AllDistinct, FacilitiesExist, FacilitiesGrouped;
    DirsDistinctMeans(cfg);
    FacilitiesExistMeans(groups, cfg);
    ServicesUsable(groups, cfg);
  }

  lemma FacilitiesExistMeans(groups: seq<UnixGroup>, cfg: BcpCfg)
    ensures FacilitiesExist(cfg, FacilityNames(groups, cfg)) <==> FacilitiesGrouped(groups, cfg)
  {
    hide FacilityNames, NamesOrgUnit;
    forall k | 0 <= k < |cfg.facilities|
      ensures cfg.facilities[k].name in FacilityNames(groups, cfg) <==> FacilityGrouped(groups, cfg, cfg.facilities[k].name)
    {
      InFacilityNames(groups, cfg, cfg.facilities[k].name);
    }
  }

  lemma DirsDistinctMeans(cfg: BcpCfg)
    ensures AllDistinct(cfg.orgUnits) <==> NoDirTwice(cfg)
  {
    forall k, ds: seq<DirWithPolicy> | 0 <= k < |cfg.orgUnits|
      ensures ConfiguredDirs(ds, cfg.orgUnits[k]) <==> ds == DirsOf(cfg.orgUnits[k])
    {
      DirsAreConfigured(cfg.orgUnits[k], ds);
    }
  }

  lemma DirsAreConfigured(cou: OrgUnitCfg, ds: seq<DirWithPolicy>)
    ensures ConfiguredDirs(ds, cou) <==> ds == DirsOf(cou)
  {
    var all, k := DirsOf(cou), |cou.subdirs|;
    if ConfiguredDirs(ds, cou) {
      forall i | 0 <= i < |ds| ensures ds[i] == all[i] {
        if i < k { assert ds[..k][i] == ds[i]; } else { assert ds[k + (i - k)] == ds[i]; }
      }
    }
  }

  lemma ServicesUsable(groups: seq<UnixGroup>, cfg: BcpCfg)
    ensures (forall i :: 0 <= i < |ServiceNames(groups, cfg)| && ServiceNames(groups, cfg)[i] in FacilityBySrv(cfg.facilities) ==>
               Configurable(cfg, ByName(groups), FacilityBySrv(cfg.facilities)[ServiceNames(groups, cfg)[i]])) <==>
            SectionsUsable(groups, cfg)
  {
    hide ServiceNames, FacilityBySrv, Configurable, Usable, NamesService, ByName;
    var names, fac := ServiceNames(groups, cfg), FacilityBySrv(cfg.facilities);
    if forall i :: 0 <= i < |names| && names[i] in fac ==> Configurable(cfg, ByName(groups), fac[names[i]]) {
      forall g, n, k: nat | g in groups && NamesService(g, cfg, n) && LastListing(cfg.facilities, n, k)
        ensures Usable(groups, cfg, cfg.facilities[k])
      {
        InServiceNames(groups, cfg, n);
        var i :| 0 <= i < |names| && names[i] == n;
        FacilityIsLast(cfg.facilities, n);
        UsableMeans(groups, cfg, fac[n]);
      }
    }
    if SectionsUsable(groups, cfg) {
      forall i | 0 <= i < |names| && names[i] in fac ensures Configurable(cfg, ByName(groups), fac[names[i]]) {
        InServiceNames(groups, cfg, names[i]);
        var g :| g in groups && NamesService(g, cfg, names[i]);
        FacilityIsLast(cfg.facilities, names[i]);
        var k: nat :| LastListing(cfg.facilities, names[i], k);
        UsableMeans(groups, cfg, fac[names[i]]);
      }
    }
  }

  // The whole organization, from the groups or from a group database that holds them

  ghost predicate Meant(groups: seq<UnixGroup>, cfg: BcpCfg, org: Organization) {
    && (forall s :: s in org.services <==> s.access != Unspecified && exists k: nat :: ServiceMeant(groups, cfg, s, k))
    && (forall ou :: ou in org.orgUnits <==> OuMeant(groups, cfg, ou))
    && (forall f: string :: OrgFacility(f) in org.facilities <==> FacilityGrouped(groups, cfg, f))
  }

  ghost predicate Loadable(groups: seq<UnixGroup>, cfg: BcpCfg) {
    NoDirTwice(cfg) && FacilitiesGrouped(groups, cfg) && SectionsUsable(groups, cfg)
  }

  lemma NewMeans(groups: seq<UnixGroup>, cfg: BcpCfg, org: Organization)
    requires DistinctNames(groups) && org.facilities == FacilitiesFor(FacilityNames(groups, cfg))
    requires Some(org.orgUnits) == OrgUnitsFor(cfg, ByName(groups), DirsByOu(cfg.orgUnits), OrgUnitNames(groups, cfg))
    requires Some(org.services) == ServicesFor(cfg, ByName(groups), FacilityBySrv(cfg.facilities), ServiceNames(groups, cfg))
    ensures Meant(groups, cfg, org)
  {
    hide DistinctNames, OrgUnitsFor, ServicesFor, OrgUnitNames, ServiceNames, FacilityNames, FacilityBySrv, DirsByOu, ByName, OuMeant, ServiceMeant,
         FacilityGrouped;
    OusMean(groups, cfg, org.orgUnits);
    ServicesMean(groups, cfg, org.services);
    forall f: string ensures OrgFacility(f) in org.facilities <==> FacilityGrouped(groups, cfg, f) {
      FacilityListed(groups, cfg, f);
    }
  }

  lemma FacilityListed(groups: seq<UnixGroup>, cfg: BcpCfg, f: string)
    ensures OrgFacility(f) in FacilitiesFor(FacilityNames(groups, cfg)) <==> FacilityGrouped(groups, cfg, f)
  {
    hide FacilityNames;
    var names := FacilityNames(groups, cfg);
    InFacilityNames(groups, cfg, f);
    if f in names {
      var i :| 0 <= i < |names| && names[i] == f;
      assert FacilitiesFor(names)[i] == OrgFacility(f);
    }
  }

  /** The group is for a service or an org unit, or it is the super group. */
  ghost predicate RelevantGroup(cfg: BcpCfg, g: UnixGroup) {
    cfg.servicePrefix + "_" <= g.name || cfg.orgUnitPrefix + "_" <= g.name || g.name == cfg.superGroup
  }

  /** These are the relevant groups of the database. */
  ghost predicate HoldsRelevant(db: seq<UnixGroup>, groups: seq<UnixGroup>, cfg: BcpCfg) {
    forall g :: g in groups <==> g in db && RelevantGroup(cfg, g)
  }

  lemma NamedAreRelevant(db: seq<UnixGroup>, groups: seq<UnixGroup>, cfg: BcpCfg, g: UnixGroup, n: string)
    requires HoldsRelevant(db, groups, cfg)
    ensures NamesService(g, cfg, n) || NamesOrgUnit(g, cfg, n) || g.name == cfg.servicePrefix + "_" + n || g.name == cfg.superGroup ==>
              (g in db <==> g in groups)
  {
    hide EndsWith;
  }

  lemma ServiceMeantSame(db: seq<UnixGroup>, groups: seq<UnixGroup>, cfg: BcpCfg, s: Service, k: nat)
    requires HoldsRelevant(db, groups, cfg)
    ensures ServiceMeant(db, cfg, s, k) <==> ServiceMeant(groups, cfg, s, k)
  {
    hide HoldsRelevant, EndsWith;
    NamedAreRelevant(db, groups, cfg, s.serviceGroup, s.name);
    if k < |cfg.facilities| {
      var ops := cfg.facilities[k].name + "-" + cfg.opsSuffix;
      assert cfg.servicePrefix + "_" + ops == cfg.servicePrefix + "_" + cfg.facilities[k].name + "-" + cfg.opsSuffix;
      NamedAreRelevant(db, groups, cfg, s.serviceOpsGroup, ops);
    }
    NamedAreRelevant(db, groups, cfg, s.superGroup, "");
  }

  lemma OuMeantSame(db: seq<UnixGroup>, groups: seq<UnixGroup>, cfg: BcpCfg, ou: OrgUnit)
    requires HoldsRelevant(db, groups, cfg)
    ensures OuMeant(db, cfg, ou) <==> OuMeant(groups, cfg, ou)
  {
    hide HoldsRelevant, EndsWith, LastSection, ConfiguredDirs;
    NamedAreRelevant(db, groups, cfg, ou.orgUnitGroup, ou.name);
  }

  lemma FacilitySame(db: seq<UnixGroup>, groups: seq<UnixGroup>, cfg: BcpCfg, f: string)
    requires HoldsRelevant(db, groups, cfg)
    ensures FacilityGrouped(db, cfg, f) <==> FacilityGrouped(groups, cfg, f)
  {
    hide HoldsRelevant;
    forall g ensures NamesOrgUnit(g, cfg, f + "-" + cfg.facilitySuffix) ==> (g in db <==> g in groups) {
      NamedAreRelevant(db, groups, cfg, g, f + "-" + cfg.facilitySuffix);
    }
  }

  lemma UsableSame(db: seq<UnixGroup>, groups: seq<UnixGroup>, cfg: BcpCfg, f: FacilityCfg)
    requires HoldsRelevant(db, groups, cfg)
    ensures Usable(db, cfg, f) <==> Usable(groups, cfg, f)
  {
    hide HoldsRelevant;
    var ops := f.name + "-" + cfg.opsSuffix;
    assert cfg.servicePrefix + "_" + ops == cfg.servicePrefix + "_" + f.name + "-" + cfg.opsSuffix;
    forall g: UnixGroup ensures g.name == cfg.superGroup || g.name == cfg.servicePrefix + "_" + ops ==> (g in db <==> g in groups) {
      NamedAreRelevant(db, groups, cfg, g, ops);
    }
  }

  lemma MeantSame(db: seq<UnixGroup>, groups: seq<UnixGroup>, cfg: BcpCfg, org: Organization)
    requires HoldsRelevant(db, groups, cfg) && Meant(groups, cfg, org)
    ensures Meant(db, cfg, org)
  {
    hide HoldsRelevant, ServiceMeant, OuMeant, FacilityGrouped;
    forall s: Service, k: nat ensures ServiceMeant(db, cfg, s, k) <==> ServiceMeant(groups, cfg, s, k) {
      ServiceMeantSame(db, groups, cfg, s, k);
    }
    forall ou ensures OuMeant(db, cfg, ou) <==> OuMeant(groups, cfg, ou) {
      OuMeantSame(db, groups, cfg, ou);
    }
    forall f: string ensures FacilityGrouped(db, cfg, f) <==> FacilityGrouped(groups, cfg, f) {
      FacilitySame(db, groups, cfg, f);
    }
  }

  lemma LoadableSame(db: seq<UnixGroup>, groups: seq<UnixGroup>, cfg: BcpCfg)
    requires HoldsRelevant(db, groups, cfg)
    ensures Loadable(db, cfg) <==> Loadable(groups, cfg)
  {
    hide HoldsRelevant, FacilityGrouped, NoDirTwice, SectionsUsable;
    forall f: string ensures FacilityGrouped(db, cfg, f) <==> FacilityGrouped(groups, cfg, f) {
      FacilitySame(db, groups, cfg, f);
    }
    if SectionsUsable(db, cfg) { SectionsSame(db, groups, cfg); }
    if SectionsUsable(groups, cfg) { SectionsBack(db, groups, cfg); }
  }

  lemma SectionsSame(db: seq<UnixGroup>, groups: seq<UnixGroup>, cfg: BcpCfg)
    requires HoldsRelevant(db, groups, cfg) && SectionsUsable(db, cfg)
    ensures SectionsUsable(groups, cfg)
  {
    hide HoldsRelevant, Usable, NamesService;
    forall g, n, k: nat | g in groups && NamesService(g, cfg, n) && LastListing(cfg.facilities, n, k)
      ensures Usable(groups, cfg, cfg.facilities[k])
    {
      NamedAreRelevant(db, groups, cfg, g, n);
      UsableSame(db, groups, cfg, cfg.facilities[k]);
    }
  }

  lemma SectionsBack(db: seq<UnixGroup>, groups: seq<UnixGroup>, cfg: BcpCfg)
    requires HoldsRelevant(db, groups, cfg) && SectionsUsable(groups, cfg)
    ensures SectionsUsable(db, cfg)
  {
    hide HoldsRelevant, Usable, NamesService;
    forall g, n, k: nat | g in db && NamesService(g, cfg, n) && LastListing(cfg.facilities, n, k)
      ensures Usable(db, cfg, cfg.facilities[k])
    {
      NamedAreRelevant(db, groups, cfg, g, n);
      UsableSame(db, groups, cfg, cfg.facilities[k]);
    }
  }
}
