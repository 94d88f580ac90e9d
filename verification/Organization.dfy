/** The organization that the Unix groups and the configuration describe. */
module Organization {

  datatype UnixGroup = UnixGroup(name: string, gid: nat)

  datatype AccessPolicy = Unspecified | PerService | AllOrgUnits

  datatype DirPolicy = GroupPolicy | OwnerPolicy | ManagerPolicy

  datatype DirWithPolicy = DirWithPolicy(name: string, policy: DirPolicy)

  datatype Service = Service(
    name: string,
    facility: string,
    access: AccessPolicy,
    superGroup: UnixGroup,
    serviceGroup: UnixGroup,
    serviceOpsGroup: UnixGroup)

  datatype OrgUnit = OrgUnit(
    name: string,
    subdirs: seq<DirWithPolicy>,
    isFacility: bool,
    facility: string,
    orgUnitGroup: UnixGroup)

  datatype OrgFacility = OrgFacility(name: string)

  datatype Organization = Organization(orgUnits: seq<OrgUnit>, facilities: seq<OrgFacility>, services: seq<Service>)
}
