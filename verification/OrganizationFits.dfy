/** From the group database to the apply run: a parsed organization has the names and gids
    that the scripts and the checker rely on, and the sharing part sees the same
    facilities. */
module OrganizationFits {
  import opened Strings
  import opened Paths
  import opened Sharing
  import opened Organization
  import opened Groups
  import opened Bcp
  import opened OrganizationMeaning
  import opened DirScripts
  import opened ScriptsMeetCheck
  import opened FsApply
  import opened ApplySymlinks
  import opened ApplyLinks
  import opened FreshApplyAcls
  import opened Deployment

  // Group database

  /** No group is for an org unit and for a service, and the super group is for neither;
      without a configured super group, gid 0 stands for it. */
  predicate GroupsApart(groups: seq<UnixGroup>, cfg: BcpCfg) {
    forall g :: g in groups ==>
      && !(cfg.OuPrefix() <= g.name && cfg.SrvPrefix() <= g.name)
      && (cfg.OuPrefix() <= g.name || cfg.SrvPrefix() <= g.name ==>
            g.name != cfg.superGroup && (cfg.superGroup == "" ==> g.gid != 0))
  }

  ghost predicate CleanDirs(ds: seq<DirWithPolicy>) {
    forall i :: 0 <= i < |ds| ==> CleanName(ds[i].name)
  }

  /** All names of the groups and the configuration are single path components. */
  ghost predicate CleanInput(groups: seq<UnixGroup>, cfg: BcpCfg) {
    && CleanNames(OrgUnitNames(groups, cfg)) && CleanNames(ServiceNames(groups, cfg))
    && forall i :: 0 <= i < |cfg.orgUnits| ==> CleanDirs(DirsOf(cfg.orgUnits[i]))
  }

  /** What New returns. */
  ghost predicate Parsed(groups: seq<UnixGroup>, cfg: BcpCfg, org: Organization) {
    && Complete(groups, cfg)
    && Some(org.orgUnits) == OrgUnitsFor(cfg, ByName(groups), DirsByOu(cfg.orgUnits), OrgUnitNames(groups, cfg))
    && Some(org.services) == ServicesFor(cfg, ByName(groups), FacilityBySrv(cfg.facilities), ServiceNames(groups, cfg))
  }

  /** No additional directory of an org unit has the name of a service that it uses. */
  ghost predicate NoSubdirForService(org: Organization, filter: Filter) {
    forall i, j, k :: 0 <= i < |org.services| && 0 <= j < |org.orgUnits| && filter(org.services[i], org.orgUnits[j])
                      && 0 <= k < |org.orgUnits[j].subdirs| ==>
      org.orgUnits[j].subdirs[k].name != org.services[i].name
  }

  /** The groups that loading hands to New: those of org units and services and the super
      group, without duplicates, sorted by name. */
  ghost function LoadedGroups(db: seq<UnixGroup>, cfg: BcpCfg): seq<UnixGroup> {
    SortedGroups(Firsts(Relevant(db, cfg)))
  }

  function Relevant(db: seq<UnixGroup>, cfg: BcpCfg): seq<UnixGroup> {
    Chosen(db, [cfg.OuPrefix(), cfg.SrvPrefix()], [cfg.superGroup])
  }

  lemma DedupFits(db: seq<UnixGroup>)
    requires NoConflicts(db)
    ensures DistinctNames(Firsts(db))
  {
    hide Firsts;
    FirstsSpec(db);
    var gs := Firsts(db);
    forall i, j | 0 <= i < j < |gs| ensures gs[i].name != gs[j].name {
      DedupIsBijective(db, i, j);
    }
  }

  lemma NoConflictsAmong(db: seq<UnixGroup>, gs: seq<UnixGroup>)
    requires NoConflicts(db) && forall g :: g in gs ==> g in db
    ensures NoConflicts(gs)
  {
    forall i, j | 0 <= i < |gs| && 0 <= j < |gs| ensures !Conflict(gs[i], gs[j]) {
      NoConflictIn(db, gs[i], gs[j]);
    }
  }

  /** In these groups, name and gid determine each other, and no relevant group is lost. */
  lemma LoadedFits(db: seq<UnixGroup>, cfg: BcpCfg)
    requires NoConflicts(Relevant(db, cfg))
    ensures var groups := LoadedGroups(db, cfg);
            NoConflicts(groups) && DistinctNames(groups) && forall g :: g in groups <==> g in Relevant(db, cfg)
  {
    hide Firsts, NoConflicts, Chosen, SortedGroups, Ascending, DistinctNames;
    var gs := Relevant(db, cfg);
    DedupFits(gs);
    FirstsSpec(gs);
    SomeSorted(Firsts(gs));
    NoConflictsAmong(gs, LoadedGroups(db, cfg));
    AscendingDistinct(LoadedGroups(db, cfg));
  }

  lemma AscendingDistinct(gs: seq<UnixGroup>)
    requires Ascending(NamesOfGroups(gs))
    ensures DistinctNames(gs)
  {
    AscendingNoDuplicates(NamesOfGroups(gs));
    var ns := NamesOfGroups(gs);
    forall i, j | 0 <= i < j < |gs| ensures gs[i].name != gs[j].name {
      assert ns[i] != ns[j];
    }
  }

  // Org units

  lemma OuOf(groups: seq<UnixGroup>, cfg: BcpCfg, org: Organization, j: nat)
    requires Parsed(groups, cfg, org) && CleanInput(groups, cfg) && j < |org.orgUnits|
    ensures |org.orgUnits| == |OrgUnitNames(groups, cfg)|
    ensures var ou := org.orgUnits[j];
            && ou.name == OrgUnitNames(groups, cfg)[j] && CleanName(ou.name)
            && ou.orgUnitGroup in groups && ou.orgUnitGroup.name == cfg.OuPrefix() + ou.name
            && DistinctDirs(ou.subdirs) && CleanDirs(ou.subdirs)
            && (ou.isFacility <==> HasSuffix(ou.name, "-" + cfg.facilitySuffix))
            && (ou.isFacility ==> ou.name == ou.facility + "-" + cfg.facilitySuffix)
  {
    hide OrgUnitsFor, OrgUnitNames, ServicesFor, ServiceNames, Complete;
    OusCount(groups, cfg, org);
    OuFacts(groups, cfg, j);
    OuAt(cfg, ByName(groups), DirsByOu(cfg.orgUnits), OrgUnitNames(groups, cfg), j);
    DirsClean(cfg.orgUnits);
    assert OrgUnitNames(groups, cfg)[j] in OrgUnitNames(groups, cfg);
  }

  lemma OusCount(groups: seq<UnixGroup>, cfg: BcpCfg, org: Organization)
    requires Parsed(groups, cfg, org)
    ensures |org.orgUnits| == |OrgUnitNames(groups, cfg)|
  {
    hide OrgUnitNames;
    var names := OrgUnitNames(groups, cfg);
    if names != [] { OuAt(cfg, ByName(groups), DirsByOu(cfg.orgUnits), names, 0); }
  }

  lemma {:induction false} DirsClean(cous: seq<OrgUnitCfg>)
    requires forall i :: 0 <= i < |cous| ==> CleanDirs(DirsOf(cous[i]))
    ensures forall o :: o in DirsByOu(cous) ==> CleanDirs(DirsByOu(cous)[o])
  {
    if cous != [] { DirsClean(cous[..|cous| - 1]); }
  }

  lemma OusApart(groups: seq<UnixGroup>, cfg: BcpCfg, org: Organization)
    requires Parsed(groups, cfg, org) && CleanInput(groups, cfg) && DistinctNames(groups)
    ensures OwnTargets(org.orgUnits)
  {
    hide OrgUnitsFor, OrgUnitNames, ServicesFor, ServiceNames, Complete, CleanInput, DistinctNames, DistinctDirs, CleanDirs;
    NamesDistinct(groups, cfg);
    forall i, j | 0 <= i < j < |org.orgUnits|
      ensures org.orgUnits[i].name != org.orgUnits[j].name
      ensures org.orgUnits[i].isFacility && org.orgUnits[j].isFacility ==> org.orgUnits[i].facility != org.orgUnits[j].facility
    {
      OuOf(groups, cfg, org, i);
      OuOf(groups, cfg, org, j);
    }
  }

  // Services

  lemma ServiceOf(groups: seq<UnixGroup>, cfg: BcpCfg, org: Organization, s: Service)
    requires NoConflicts(groups) && Parsed(groups, cfg, org) && CleanInput(groups, cfg) && s in org.services
    ensures CleanName(s.name) && (s.access == PerService || s.access == AllOrgUnits)
    ensures s.serviceGroup in groups && cfg.SrvPrefix() <= s.serviceGroup.name
    ensures s.serviceOpsGroup in groups && cfg.SrvPrefix() <= s.serviceOpsGroup.name
    ensures s.serviceGroup.gid != s.serviceOpsGroup.gid
    ensures cfg.superGroup != "" ==> s.superGroup in groups && s.superGroup.name == cfg.superGroup
    ensures cfg.superGroup == "" ==> s.superGroup.gid == 0
    ensures s.name in FacilityBySrv(cfg.facilities) && s.facility == FacilityBySrv(cfg.facilities)[s.name].name
  {
    hide OrgUnitsFor, OrgUnitNames, ServicesFor, ServiceNames, Complete, FacilityBySrv, NoConflicts;
    ServiceFacts(groups, cfg, s);
    ServiceAt(cfg, ByName(groups), FacilityBySrv(cfg.facilities), ServiceNames(groups, cfg), s);
    ByNameSpec(groups);
    assert cfg.SrvPrefix() + s.facility + "-" + cfg.opsSuffix == cfg.SrvPrefix() + (s.facility + "-" + cfg.opsSuffix);
  }

  lemma ServicesApart(groups: seq<UnixGroup>, cfg: BcpCfg, org: Organization)
    requires Parsed(groups, cfg, org) && DistinctNames(groups)
    ensures DistinctServices(org.services)
  {
    hide OrgUnitsFor, OrgUnitNames, ServicesFor, ServiceNames, Complete, DistinctNames, Select;
    var fac, names := FacilityBySrv(cfg.facilities), ServiceNames(groups, cfg);
    NamesDistinct(groups, cfg);
    ServicesAreConfigured(cfg, ByName(groups), fac, names);
    SelectNoDuplicates(names, fac);
    var ns := NamesOfServices(org.services);
    forall i, j | 0 <= i < j < |org.services| ensures org.services[i].name != org.services[j].name {
      assert ns[i] == org.services[i].name && ns[j] == org.services[j].name;
    }
  }

  lemma {:induction false} SelectNoDuplicates(names: seq<string>, fac: map<string, FacilityCfg>)
    requires NoDuplicates(names)
    ensures NoDuplicates(Select(names, fac, true)) && forall n :: n in Select(names, fac, true) ==> n in names
  {
    if names != [] {
      var n := |names| - 1;
      assert names == names[..n] + [names[n]];
      SelectNoDuplicates(names[..n], fac);
      if names[n] in fac {
        assert names[n] !in names[..n];
        NoDuplicatesSnoc(Select(names[..n], fac, true), names[n]);
      }
    }
  }

  // Gids

  /** The super group's gid is not that of any org unit or service group. */
  lemma SuperApart(groups: seq<UnixGroup>, cfg: BcpCfg, org: Organization, s: Service, g: UnixGroup)
    requires NoConflicts(groups) && Parsed(groups, cfg, org) && CleanInput(groups, cfg) && GroupsApart(groups, cfg)
    requires s in org.services && g in groups && (cfg.OuPrefix() <= g.name || cfg.SrvPrefix() <= g.name)
    ensures s.superGroup.gid != g.gid
  {
    hide Parsed, CleanInput, NoConflicts, FacilityBySrv;
    ServiceOf(groups, cfg, org, s);
    if cfg.superGroup != "" { SameGroup(groups, s.superGroup, g); }
  }

  lemma GidsDiffer(groups: seq<UnixGroup>, cfg: BcpCfg, org: Organization, s: Service, ou: OrgUnit)
    requires NoConflicts(groups) && Parsed(groups, cfg, org) && CleanInput(groups, cfg) && GroupsApart(groups, cfg)
    requires s in org.services && ou in org.orgUnits
    ensures DistinctGids(ServiceScript(s)) && DistinctGids(SouJob("", s, ou).script)
  {
    hide Parsed, CleanInput, NoConflicts, FacilityBySrv, DistinctDirs, CleanDirs, OrgUnitNames;
    ServiceOf(groups, cfg, org, s);
    var j :| 0 <= j < |org.orgUnits| && org.orgUnits[j] == ou;
    OuOf(groups, cfg, org, j);
    SuperApart(groups, cfg, org, s, s.serviceGroup);
    SuperApart(groups, cfg, org, s, s.serviceOpsGroup);
    SuperApart(groups, cfg, org, s, ou.orgUnitGroup);
    SameGroup(groups, ou.orgUnitGroup, s.serviceGroup);
    SameGroup(groups, ou.orgUnitGroup, s.serviceOpsGroup);
  }

  lemma ServiceGids(groups: seq<UnixGroup>, cfg: BcpCfg, org: Organization, s: Service)
    requires NoConflicts(groups) && Parsed(groups, cfg, org) && CleanInput(groups, cfg) && GroupsApart(groups, cfg)
    requires s in org.services
    ensures DistinctGids(ServiceScript(s))
  {
    hide Parsed, CleanInput, NoConflicts, FacilityBySrv;
    ServiceOf(groups, cfg, org, s);
    SuperApart(groups, cfg, org, s, s.serviceGroup);
    SuperApart(groups, cfg, org, s, s.serviceOpsGroup);
  }

  // The apply run

  /** What New parses from deduplicated groups is all that an apply run needs. */
  lemma ParsedIsValid(groups: seq<UnixGroup>, bcp: BcpCfg, org: Organization, cfg: Config, filter: Filter)
    requires NoConflicts(groups) && DistinctNames(groups) && Parsed(groups, bcp, org)
    requires GroupsApart(groups, bcp) && CleanInput(groups, bcp) && cfg.Valid() && NoSubdirForService(org, filter)
    ensures World(cfg, org.services, org.orgUnits, filter).Valid()
    ensures OwnTargets(org.orgUnits)
  {
    hide Parsed, CleanInput, NoConflicts, FacilityBySrv, OrgUnitNames, GroupsApart, DistinctNames, DistinctGids, ServiceScript;
    OusApart(groups, bcp, org);
    ServicesApart(groups, bcp, org);
    forall j | 0 <= j < |org.orgUnits| ensures CleanName(org.orgUnits[j].name) && DistinctSubdirs(org.orgUnits[j]) && CleanDirs(org.orgUnits[j].subdirs) {
      OuOf(groups, bcp, org, j);
    }
    forall i | 0 <= i < |org.services|
      ensures CleanName(org.services[i].name) && org.services[i].access != Unspecified && DistinctGids(ServiceScript(org.services[i]))
    {
      ServiceOf(groups, bcp, org, org.services[i]);
      ServiceGids(groups, bcp, org, org.services[i]);
    }
    forall i, j | 0 <= i < |org.services| && 0 <= j < |org.orgUnits|
      ensures DistinctGids(SouJob("", org.services[i], org.orgUnits[j]).script)
    {
      GidsDiffer(groups, bcp, org, org.services[i], org.orgUnits[j]);
    }
  }

  /** Relevant groups with one name have one gid, and the other way around. */
  ghost predicate GroupsAgree(db: seq<UnixGroup>, cfg: BcpCfg) {
    forall a, b :: a in db && b in db && RelevantGroup(cfg, a) && RelevantGroup(cfg, b) ==> (a.name == b.name <==> a.gid == b.gid)
  }

  lemma RelevantMeans(db: seq<UnixGroup>, cfg: BcpCfg, g: UnixGroup)
    ensures g in Relevant(db, cfg) <==> g in db && RelevantGroup(cfg, g)
  {
    var prefixes := [cfg.OuPrefix(), cfg.SrvPrefix()];
    InChosen(db, prefixes, [cfg.superGroup], g);
    assert prefixes[0] == cfg.OuPrefix() && prefixes[1] == cfg.SrvPrefix();
  }

  lemma AgreeMeans(db: seq<UnixGroup>, cfg: BcpCfg)
    ensures NoConflicts(Relevant(db, cfg)) <==> GroupsAgree(db, cfg)
  {
    hide Relevant, RelevantGroup;
    var gs := Relevant(db, cfg);
    forall g ensures g in gs <==> g in db && RelevantGroup(cfg, g) {
      RelevantMeans(db, cfg, g);
    }
    if GroupsAgree(db, cfg) {
      forall i, j | 0 <= i < |gs| && 0 <= j < |gs| ensures !Conflict(gs[i], gs[j]) {
        assert gs[i] in gs && gs[j] in gs;
      }
    }
  }

  /** The loaded groups are the relevant ones, so nothing is said of them that is not true of
      the database. */
  lemma LoadedMeans(db: seq<UnixGroup>, cfg: BcpCfg)
    requires NoConflicts(Relevant(db, cfg))
    ensures HoldsRelevant(db, LoadedGroups(db, cfg), cfg)
    ensures Complete(LoadedGroups(db, cfg), cfg) <==> Loadable(db, cfg)
  {
    hide Relevant, RelevantGroup, LoadedGroups, NoConflicts, Complete, HoldsRelevant, NoDirTwice, FacilitiesGrouped, SectionsUsable;
    LoadedFits(db, cfg);
    assert HoldsRelevant(db, LoadedGroups(db, cfg), cfg) by { RelevantHeld(db, LoadedGroups(db, cfg), cfg); }
    LoadableSame(db, LoadedGroups(db, cfg), cfg);
    SuccessMeans(LoadedGroups(db, cfg), cfg);
  }

  lemma RelevantHeld(db: seq<UnixGroup>, groups: seq<UnixGroup>, cfg: BcpCfg)
    requires forall g :: g in groups <==> g in Relevant(db, cfg)
    ensures HoldsRelevant(db, groups, cfg)
  {
    hide Relevant, RelevantGroup;
    forall g ensures g in groups <==> g in db && RelevantGroup(cfg, g) {
      RelevantMeans(db, cfg, g);
    }
  }

  /** Loading: the relevant groups are selected, duplicates are removed, and the
      organization is parsed from the sorted groups. */
  method LoadOrganization(db: seq<UnixGroup>, bcp: BcpCfg) returns (r: Result<Organization>, unconfigured: seq<string>)
    ensures r.Ok? <==> GroupsAgree(db, bcp) && Loadable(db, bcp)
    ensures r.Ok? ==> Meant(db, bcp, r.value)
    ensures r.Ok? ==> Parsed(LoadedGroups(db, bcp), bcp, r.value)
    ensures r.Ok? && GroupsApart(LoadedGroups(db, bcp), bcp) && CleanInput(LoadedGroups(db, bcp), bcp) ==>
              forall cfg: Config, filter: Filter | cfg.Valid() && NoSubdirForService(r.value, filter) ::
                World(cfg, r.value.services, r.value.orgUnits, filter).Valid()
  {
    hide NoConflicts, Complete, GroupsApart, CleanInput, Firsts, World.Valid, Config.Valid, NoSubdirForService,
         OrgUnitsFor, ServicesFor, OrgUnitNames, ServiceNames, Chosen, DistinctNames, SortedGroups, Sorted, GroupsAgree, Loadable, Meant,
         HoldsRelevant;
    AgreeMeans(db, bcp);
    var selected := SelectGroups(db, [bcp.OuPrefix(), bcp.SrvPrefix()], [bcp.superGroup]);
    var dedup := DedupGroups(selected);
    if dedup.Err? { return Err(dedup.error), []; }
    DedupFits(selected);
    var groups := SortGroups(dedup.value);
    LoadedFits(db, bcp);
    LoadedMeans(db, bcp);
    r, unconfigured := New(groups, bcp);
    if r.Ok? {
      NewMeans(groups, bcp, r.value);
      MeantSame(db, groups, bcp, r.value);
    }
    if r.Ok? && GroupsApart(groups, bcp) && CleanInput(groups, bcp) {
      var org := r.value;
      forall cfg: Config, filter: Filter | cfg.Valid() && NoSubdirForService(org, filter)
        ensures World(cfg, org.services, org.orgUnits, filter).Valid()
      {
        ParsedIsValid(groups, bcp, org, cfg, filter);
      }
    }
  }

  // The sharing part

  function FacilityList(facs: seq<FacilityCfg>): (r: seq<Facility>)
    ensures |r| == |facs|
  {
    if facs == [] then []
    else
      var n := |facs| - 1;
      FacilityList(facs[..n]) + [Facility(facs[n].name, facs[n].services)]
  }

  /** NewBcpfs on the same configuration. */
  function SharingView(cfg: Config, bcp: BcpCfg): Bcpfs {
    var facs := FacilityList(bcp.facilities);
    Bcpfs(cfg.rootdir, cfg.serviceDir, cfg.orgUnitDir, bcp.servicePrefix, bcp.orgUnitPrefix, FacilityByService(facs), FacilityDirs(facs))
  }

  /** Both programs give a service to the same facility. */
  lemma {:induction false} SameFacility(facs: seq<FacilityCfg>, s: string)
    ensures s in FacilityByService(FacilityList(facs)) <==> s in FacilityBySrv(facs)
    ensures s in FacilityBySrv(facs) ==> FacilityByService(FacilityList(facs))[s] == FacilityBySrv(facs)[s].name
  {
    if facs != [] {
      var n := |facs| - 1;
      SameFacility(facs[..n], s);
      assert FacilityList(facs)[..n] == FacilityList(facs[..n]);
    }
  }

  lemma SharingViewValid(cfg: Config, bcp: BcpCfg)
    requires cfg.Valid()
    ensures SharingView(cfg, bcp).Valid()
  {
    hide FacilityByService, FacilityDirs, FacilityList;
    var facs := FacilityList(bcp.facilities);
    forall s | s in FacilityByService(facs) ensures FacilityByService(facs)[s] + "-facility" in FacilityDirs(facs) {
      FacilityMaps(facs, s);
    }
  }

  /** The sharing part writes `-facility` where the apply part uses the configured suffix.
      So the two programs mean the same service link unless the suffix is another one and
      the org unit is the facility by one of the two names. */
  lemma AgreeIff(groups: seq<UnixGroup>, bcp: BcpCfg, org: Organization, cfg: Config, i: nat, j: nat)
    requires NoConflicts(groups) && Parsed(groups, bcp, org) && CleanInput(groups, bcp)
    requires i < |org.services| && j < |org.orgUnits|
    ensures var ou, s := org.orgUnits[j], org.services[i];
            Agree(SharingView(cfg, bcp), cfg, ou, s) <==>
            bcp.facilitySuffix == "facility" ||
            ou.name !in {s.facility + "-facility", s.facility + "-" + bcp.facilitySuffix}
  {
    hide Parsed, CleanInput, NoConflicts, FacilityBySrv, OrgUnitNames, FacilityByService, FacilityDirs, FacilityList, HasSuffix;
    var ou, s := org.orgUnits[j], org.services[i];
    OuOf(groups, bcp, org, j);
    ServiceOf(groups, bcp, org, s);
    SameFacility(bcp.facilities, s.name);
    FacilityByName(ou, s, bcp.facilitySuffix);
    assert s.facility + "-facility" == s.facility + "-" + "facility";
    if s.facility + "-" + bcp.facilitySuffix == s.facility + "-facility" {
      var a, b := s.facility + "-" + bcp.facilitySuffix, s.facility + "-facility";
      assert a[|s.facility| + 1..] == bcp.facilitySuffix && b[|s.facility| + 1..] == "facility";
    }
  }

  /** For example, with suffix `fac` the org unit `em-fac` is the facility `em`, which
      operates `mic`: the apply part links it to the top of `mic`, and the sharing part
      expects a link to the part of `em-fac`. */
  lemma OtherSuffixExample(cfg: Config, bcp: BcpCfg, byName: map<string, UnixGroup>)
    requires cfg.Valid() && bcp.facilitySuffix == "fac" && bcp.facilities == [FacilityCfg("em", ["mic"], "")]
    requires bcp.superGroup == "" && bcp.orgUnits == []
    requires bcp.OuPrefix() + "em-fac" in byName && bcp.SrvPrefix() + "mic" in byName
    requires bcp.SrvPrefix() + "em" + "-" + bcp.opsSuffix in byName
    ensures var ou := OrgUnitFor(bcp, byName, DirsByOu(bcp.orgUnits), "em-fac");
            var s := ServicesFor(bcp, byName, FacilityBySrv(bcp.facilities), ["mic"]);
            && ou.Some? && s.Some? && |s.value| == 1 && Operates(ou.value, s.value[0])
            && !Agree(SharingView(cfg, bcp), cfg, ou.value, s.value[0])
  {
    var f := FacilityCfg("em", ["mic"], "");
    SuffixOfName();
    OneFacilityList(f, "mic");
    assert ["mic"][..0] == [];
    assert ServicesFor(bcp, byName, FacilityBySrv(bcp.facilities), []) == Some([]);
    var ou := OrgUnitFor(bcp, byName, DirsByOu(bcp.orgUnits), "em-fac").value;
    SameFacility(bcp.facilities, "mic");
    assert "em-fac" != "em" + "-facility" by { assert |"em-fac"| != |"em" + "-facility"|; }
  }

  lemma SuffixOfName()
    ensures "-" + "fac" == "-fac" && HasSuffix("em-fac", "-fac") && TrimSuffix("em-fac", "-fac") == "em"
  {
    assert "em-fac"[2..] == "-fac" && "em-fac"[..2] == "em";
  }

  lemma OneFacilityList(f: FacilityCfg, s: string)
    requires f.services == [s]
    ensures FacilityBySrv([f]) == map[s := f]
  {
    assert [f][..0] == [];
    assert f.services[0] == s;
  }

  /** Every org unit group of the database has its org unit. */
  lemma EveryOrgGroup(db: seq<UnixGroup>, bcp: BcpCfg, org: Organization, g: UnixGroup)
    requires NoConflicts(Relevant(db, bcp)) && Parsed(LoadedGroups(db, bcp), bcp, org) && CleanInput(LoadedGroups(db, bcp), bcp)
    requires g in db && bcp.OuPrefix() <= g.name
    ensures exists j :: 0 <= j < |org.orgUnits| && org.orgUnits[j].orgUnitGroup == g
                        && bcp.OuPrefix() + org.orgUnits[j].name == g.name
  {
    hide NoConflicts, OrgUnitNames, Complete, ServiceNames, CleanInput, OrgUnitsFor, ServicesFor, DistinctDirs, CleanDirs, HasSuffix, Chosen,
         LoadedGroups, DistinctNames;
    var groups, prefixes := LoadedGroups(db, bcp), [bcp.OuPrefix(), bcp.SrvPrefix()];
    assert prefixes[0] <= g.name;
    InChosen(db, prefixes, [bcp.superGroup], g);
    LoadedFits(db, bcp);
    OusCount(groups, bcp, org);
    var j := NameListed(groups, bcp, g);
    OuOf(groups, bcp, org, j);
    PrefixBack(bcp.OuPrefix(), g.name);
    LookupFinds(groups, g);
    LookupFinds(groups, org.orgUnits[j].orgUnitGroup);
  }

  lemma {:induction false} NameListed(gs: seq<UnixGroup>, cfg: BcpCfg, g: UnixGroup) returns (j: nat)
    requires g in gs && cfg.OuPrefix() <= g.name
    ensures j < |OrgUnitNames(gs, cfg)| && OrgUnitNames(gs, cfg)[j] == g.name[|cfg.OuPrefix()|..]
  {
    var n := |gs| - 1;
    if gs[n] == g {
      j := |OrgUnitNames(gs[..n], cfg)|;
    } else {
      assert gs == gs[..n] + [gs[n]];
      j := NameListed(gs[..n], cfg, g);
    }
  }
}
