# bcpfs-perms, modelled and verified

bcpfs-perms manages the toplevel directories of a filesystem that research org
units and service facilities share. A configuration and the Unix groups describe
services, org units and which org unit may use which service; a sharing
configuration describes which org unit opens which directories to which other org
units. The program compiles the sharing configuration, applies everything to the
filesystem, and has a separate checker for the result.

This project models three parts in Dafny and proves what they promise.

* **Sharing.** The compiler turns exports, an import filter and a naming policy into
  ACLs per real path, `--x` traversal entries and trees of symbolic links. The
  appliers then bring ACLs and trees in place. Modules `Strings`, `Paths`, `Nesting`,
  `Sharing`, `AclSlices` (ACLs as array slices that exports may share), `RealShares`,
  `Traversal`, `ShareTrees`, `ExportPaths`, `Compiler` follow the compiler, and
  `CompiledMeaning` says what it makes in terms of components and entries; `FileSystem`
  (a mutable tree with the kernel's path walk), `Reconcile`, `ShareTreesApply`, `Reachability`,
  `AclStore`, `GetfaclText` (what getfacl prints for an ACL), `SharingAclApply`,
  `RealSharesExact`, `SharesBelow`, `TraversalApply`, `TraversalExact`, `SharingFixpoint`
  and `SharesOnDisk` follow the appliers.
* **Apply and check.** `PosixAcl` models ACLs by numeric id with `setfacl -M`,
  `setfacl -X`, the mask rule and inheritance on mkdir; `DirScripts` the scripts;
  `FsApply` the apply run with its sticky errors; `FsckAcl` and `FsCheck` the
  independent checker. `ScriptsMeetCheck`, `FreshScripts`, `ApplySteps`,
  `ApplySymlinks`, `ApplyLinks`, `ExplicitLinks`, `FreshApply`, `FreshApplyAcls`,
  `AppliedAcls` and `AppliedCheck` prove when a successful apply passes the check,
  `ServiceCleanUp` and `OrgUnitCleanUp` what it leaves, `CheckMeaning` and `AclMeaning`
  what the checker demands, and `AliasedOrgUnit` a whole run that fails its check.
  `Deployment` joins this with the sharing part.
* **Text and groups.** `Groups`, `Bcp` and `Organization` (the organization from the
  Unix groups), `OrganizationMeaning` (said of group names and configuration alone),
  `OrganizationFits` (that it is what an apply run needs), `FaclText` and `FaclMeaning`
  (the getfacl parser), `Quota`, `QuotaMeaning` and `Decimal` (quota lines).

Programs that change state are methods on classes or arrays, each tied to a
specification function of the old state; the theorems are lemmas about these
functions. The modules called `…Meaning` characterise specification functions without using
them, so that each result is also said in terms of names, paths, entries and bits.
`dafny verify dfyconfig.toml` checks everything.

What the code needs from its configuration is stated as preconditions: paths are
clean (no empty, `.` or `..` component, no leading or trailing slash), the root
directory is absolute, the two toplevel directory names are distinct single
components. `OrganizationFits` derives the rest from the group database and the
configuration.

## Where the code does not meet its promise

Each of these is proved with its exact condition, and most with an input that fails.

* A share link of a facility path leads to the realpath only if the facility owns
  the service (`Reachability.LandingIsRealpath`, `Reachability.WrongFacilityExample`).
* The ACL scope check does not look at the third component of a facility path
  (`Sharing.ScopeCheckProtectsManagingOrgUnit`, `Sharing.ScopeGapExample`).
* Exporting an org unit as a whole is not a fixpoint: traversal and sharing then
  overwrite each other's entry, unless the share is `--x` anyway
  (`SharingFixpoint.SecondPassIdle`, `SharingFixpoint.WholeOrgUnitUnsettled`).
* setfacl with `-n` can leave entries that getfacl prints with an `#effective`
  comment, which the parser rejects in the next run
  (`SharingFixpoint.RereadableIff`, `SharingFixpoint.SecondPassIdle`).
* Where the ACL of one export lists a group twice, the compiler means the union, but on disk
  only the mode listed last remains (`SharingFixpoint.GrantOnDisk`,
  `SharingFixpoint.TwoModesExample`). If every export lists each group once, merging keeps it
  so, and the disk gives the union of everything imported (`RealShares.UnionListsOnce`,
  `SharingFixpoint.UnionOnDisk`).
* Outer slashes of an exported path are trimmed only after the managing groups were
  computed. These are the ones of the stored path exactly if there is no leading slash,
  and no trailing slash behind the top of a service in facility form or, should the
  empty name be a service, behind a single component
  (`ExportPaths.StoredManagingIff`, `ExportPaths.TrailingSlashExample`).
* The suffix of facility org units is configurable, but the sharing part always writes
  `-facility` (`OrganizationFits.AgreeIff`, `OrganizationFits.OtherSuffixExample`).
* `setfacl -X` without `-n` recalculates the mask, so a wide unrelated entry makes
  the check fail right after a successful script
  (`ScriptsMeetCheck.ScriptMeetsCheck`), also after a whole run
  (`AppliedCheck.AppliedAclsPassIff`).
* Where org unit directories are links, a successful apply run passes the check of service
  links exactly if no org unit with services shares its directory with a later one or is
  reached through a link that the run removes (`ApplyLinks.AppliedLinksPassApart`,
  `ExplicitLinks.PlainLinksPassApart`, `AliasedOrgUnit.AliasFailsCheck`).
* The getfacl parser panics on a text exactly if the first paragraph that it cannot parse
  has a header and fewer than four lines (`FaclText.AllPanicsIff`); text that getfacl
  prints for existing files never makes it panic (`GetfaclText.PrintedFilesMean`).
* Quota ids that start with `#`, and lines of 65536 bytes or more, are lost without an
  error (`Quota.RoundTrip`, `Quota.Reparse`).

## Model

| member | source | states |
|---|---|---|
| `Compiler.Compile` | cmd/bcpfs-perms/bcpsharing/bcpsharing.go:144-187 | On exports whose managing groups are known, compilation succeeds if and only if naming policy, ACL scopes and the two nesting checks accept them; the three artefacts then satisfy their independent characterisations (`IsRealShares`, `IsTraversal`, `IsShareTrees`), and no ACL that was passed in has changed |
| `CompiledMeaning.AcceptedMean` | cmd/bcpfs-perms/bcpsharing/bcpsharing.go:144-187 | Which exports are accepted: for every path, the first naming rule that matches and does not pass it on allows it; no entry is for the first component or, in a service, for the facility that operates it; no path is equal to another one or starts with all of its components; and no realpath is a proper beginning of another one |
| `Compiler.CheckExportPath` | cmd/bcpfs-perms/bcpsharing/bcpsharing.go:519-538 | An export path is accepted exactly if the first rule that does not fall through allows it; no rule means rejection |
| `Compiler.CompileExports` | cmd/bcpfs-perms/bcpsharing/bcpsharing.go:453-483 | Every export gets the managing groups of its path as written and is stored without outer slashes; fails exactly if some path has no managing groups; the groups are those of the stored path exactly if `SlashesHarmless` holds of the path as written |
| `ExportPaths.CleanPathStays` | cmd/bcpfs-perms/bcpsharing/bcpsharing.go:475-479 | Trimming outer slashes keeps a clean path |
| `ExportPaths.Trimmed` | cmd/bcpfs-perms/bcpsharing/bcpsharing.go:475-479 | All slashes at both ends go, however many, and nothing else |
| `ExportPaths.StoredManagingIff` | cmd/bcpfs-perms/bcpsharing/bcpsharing.go:466-479 | For every path whose trimmed form is clean, the managing groups of the path as written are those of the stored path if and only if there is nothing to trim, or there is no leading slash, the stored path is not the two components of a service in facility form, and a single component is not followed by a slash while the empty name is a service |
| `ExportPaths.NoEmptyFacilityDir` | cmd/bcpfs-perms/bcpsharing/bcpsharing.go:273-293 | The empty name, which that presupposes not to be a facility directory, never is one |
| `ExportPaths.LeadingSlashLosesManaging` | cmd/bcpfs-perms/bcpsharing/bcpsharing.go:466-479 | A leading slash always gives other managing groups |
| `ExportPaths.ServiceTopWithSlash` | cmd/bcpfs-perms/bcpsharing/bcpsharing.go:364-398 | A trailing slash lets the top of a service pass in facility form, with the empty name as managing org unit; the stored path is rejected by the same function, and its realpath is the whole service directory |
| `ExportPaths.TrailingSlashExample` | cmd/bcpfs-perms/bcpsharing/bcpsharing.go:466-479 | For example, `em-facility/mic/` |
| `Compiler.CompileConfig` | cmd/bcpfs-perms/bcpsharing/bcpsharing.go:144-187 | The whole compiler from written paths and parsed ACLs: it succeeds if and only if every path has managing groups and the stored exports pass all checks; if outer slashes do no harm, every real share carries the managing groups of each stored path with its realpath |
| `Compiler.MergedManaging` | cmd/bcpfs-perms/bcpsharing/bcpsharing.go:670-689 | Keeping the first share's managing groups when merging is independent of the order of exports |
| `Compiler.RealsManaging` | cmd/bcpfs-perms/bcpsharing/bcpsharing.go:605-689 | If every export carries the managing groups of its own path, a real share carries those of every export with its realpath, also of exports that are not imported |
| `Compiler.RealsLieApart` | cmd/bcpfs-perms/bcpsharing/bcpsharing.go:235-271 | After a successful compilation no real share lies within another, so recursive ACL writes never overlap |
| `Nesting.CheckNesting` | cmd/bcpfs-perms/bcpsharing/bcpsharing.go:197-271 | The early-return tree check returns ok if and only if no path lies below another and, where duplicates are not allowed, all are distinct |
| `Nesting.NestingTree.CheckPath` | cmd/bcpfs-perms/bcpsharing/bcpsharing.go:205-233 | One step keeps the invariant that inner marks are exactly the proper ancestors of the leaves and fails exactly if the new path is related to an earlier one |
| `Nesting.ClimbedEnough` | cmd/bcpfs-perms/bcpsharing/bcpsharing.go:218-228 | Why the climb may stop at the first inner mark: everything above is marked already |
| `Sharing.SameRealpath` | cmd/bcpfs-perms/bcpsharing/bcpsharing.go:400-428 | Two logical paths have the same realpath if and only if they are equal or are both service paths with the same service, org unit and rest, after normalising the facility and the org unit form |
| `Sharing.RealpathParts` | cmd/bcpfs-perms/bcpsharing/bcpsharing.go:400-428 | The components of a realpath, through path.Join on flat strings |
| `Sharing.ManagingGroupsOfRealpath` | cmd/bcpfs-perms/bcpsharing/bcpsharing.go:364-428 | Managing groups are a function of the realpath |
| `SharesOnDisk.ManagedUnlessTop` | cmd/bcpfs-perms/bcpsharing/bcpsharing.go:364-398 | A path has managing groups unless it is the top of a service in facility form |
| `SharesOnDisk.ManagingIff` | cmd/bcpfs-perms/bcpsharing/bcpsharing.go:300-318 | The managing groups as they are called on disk: outside services the group of the first component; in a service `<prefix>_<facility>-ops` and the group of the org unit, which is the third component in facility form |
| `Sharing.FacilityMaps` | cmd/bcpfs-perms/bcpsharing/bcpsharing.go:273-293 | Every configured service has the last facility that lists it, and its facility directory is known |
| `Sharing.FacilityDirsMean` | cmd/bcpfs-perms/bcpsharing/bcpsharing.go:273-293 | The facility directories are those of all facilities, also of facilities without services |
| `Sharing.NewFacilityMaps` | cmd/bcpfs-perms/bcpsharing/bcpsharing.go:273-293 | The nested loops build exactly these two maps |
| `Sharing.CheckExportEntryAclScopes` | cmd/bcpfs-perms/bcpsharing/bcpsharing.go:560-581 | Accepts exactly the entries whose ACL names neither the first component nor, for a service, its facility |
| `Sharing.ScopeCheckProtectsManagingOrgUnit` | cmd/bcpfs-perms/bcpsharing/bcpsharing.go:560-581 | The scope check keeps the managing org unit out of the grantees if and only if the path is not a facility path or its third component is not a grantee: the check does not test the third component |
| `Sharing.ScopeGapExample` | cmd/bcpfs-perms/bcpsharing/bcpsharing.go:560-581 | For example, `em-facility/mic/lab` granted to `lab` passes the check, although `lab` is the managing org unit |
| `Paths.JoinNormal` | cmd/bcpfs-perms/bcpsharing/bcpsharing.go:782-793 | path.Join only concatenates when the result is some `..` followed by clean components |
| `Paths.JoinAbs` | cmd/bcpfs-perms/fsapply/fsapply.go:36-37 | Joining a clean relative path to the clean absolute root concatenates them, which is how the two toplevel paths are written here |
| `Paths.BelowIffParts` | cmd/bcpfs-perms/bcpsharing/bcpsharing.go:205-233 | Lying below on flat strings is being a proper extension on components |
| `Paths.BelowLess` | cmd/bcpfs-perms/bcpsharingapply/share-trees.go:79-101 | In byte order a directory comes before everything below it, although subtrees are not contiguous |
| `Strings.PrefixIffParts` | cmd/bcpfs-perms/bcpsharing/bcpsharing.go:205-233 | A string with the separator appended is a prefix exactly if its parts are a proper prefix |
| `Strings.AscendingUnique` | cmd/bcpfs-perms/bcpsharingapply/share-trees.go:79-101 | An ascending list is determined by its elements, so sorting removes the influence of map order |
| `RealShares.FilterIsFirstMatch` | cmd/bcpfs-perms/bcpsharing/bcpsharing.go:641-668 | The rule loop accepts exactly if the first matching rule accepts |
| `RealShares.SelectImportedExports` | cmd/bcpfs-perms/bcpsharing/bcpsharing.go:605-639 | The selected exports are the specified ones, and no existing array is written; `AcceptedMeans`, `AcceptedInOrder`, `SharedIff` and `SelectedInOrder` say which these are |
| `RealShares.InSelected` | cmd/bcpfs-perms/bcpsharing/bcpsharing.go:605-639 | Membership in the selection, both directions |
| `RealShares.AcceptedMeans` | cmd/bcpfs-perms/bcpsharing/bcpsharing.go:641-668 | Of the entries of an export exactly those stay whose first matching rule accepts, each as often as it is listed |
| `RealShares.AcceptedInOrder` | cmd/bcpfs-perms/bcpsharing/bcpsharing.go:615-639 | They stay in their order |
| `RealShares.SharedIff` | cmd/bcpfs-perms/bcpsharing/bcpsharing.go:605-639 | A share is an export with its accepted entries; an export with entries is shared exactly if one of them is accepted, and one with an empty ACL always |
| `RealShares.SharedPathIff` | cmd/bcpfs-perms/bcpsharing/bcpsharing.go:605-639 | A path is shared if and only if one of its exports is imported in this sense |
| `RealShares.SelectedInOrder` | cmd/bcpfs-perms/bcpsharing/bcpsharing.go:605-639 | Shares come in the order of the exports |
| `RealShares.Union` | cmd/bcpfs-perms/bcpsharing/bcpsharing.go:859-882 | The in-place merge with an index map: the groups of the first ACL come first, in their order, every other group of the second is added once; the last entry of a group, which is the one that counts on disk, has exactly the bits of its last entry in the first ACL and of all its entries in the second; a bit is granted exactly if one of the ACLs grants it; the result is a fresh slice and both inputs are unchanged |
| `RealShares.UnionListsOnce` | cmd/bcpfs-perms/bcpsharing/bcpsharing.go:859-882 | If the first ACL lists each group once, so does the union, and every entry has exactly the bits that the two ACLs together grant its group |
| `RealShares.CompileRealShares` | cmd/bcpfs-perms/bcpsharing/bcpsharing.go:670-689 | The loop with the index map meets `IsRealShares`: each realpath once in first-occurrence order, modes the bitwise union over all shares of that realpath, managing groups those of the first share; a real share starts as that first share and merges the others into the last entry of each group, so if the first share lists each group once, the real share does; the slices of the shares, one of which the result holds at first, are unchanged |
| `CompiledMeaning.RealsInOrder` | cmd/bcpfs-perms/bcpsharing/bcpsharing.go:670-689 | Real shares come in the order in which their realpaths occur first |
| `RealShares.CompilationMeaning` | cmd/bcpfs-perms/bcpsharing/bcpsharing.go:605-689 | For each realpath and group, a bit is granted if and only if some exported entry mapping to that realpath grants it and its first matching import rule accepts, even with duplicate groups in one ACL |
| `RealShares.ImportedModes` | cmd/bcpfs-perms/bcpsharing/bcpsharing.go:605-689 | If every export of a realpath lists each group once, the real share does, and its entry for a group has exactly the bits that are imported for the realpath |
| `RealShares.ImportedIsShared` | cmd/bcpfs-perms/bcpsharing/bcpsharing.go:605-639 | An accepted entry is in a selected share |
| `Traversal.CompileTraversal` | cmd/bcpfs-perms/bcpsharing/bcpsharing.go:693-748 | The traversal list is exact: a group has an entry on a path if and only if the path is a proper ancestor, from depth two (org) or three (srv), of a real share granting the group, or the org unit directory of a share granting it; every mode is `--x`, each path occurs once; although one slice is stored in several entries that are merged later, no input ACL changes |
| `Traversal.NoServiceDirEntry` | cmd/bcpfs-perms/bcpsharing/bcpsharing.go:704-721 | No entry is ever made for the directory of a service |
| `CompiledMeaning.TraversalMeans` | cmd/bcpfs-perms/bcpsharing/bcpsharing.go:693-748 | A group has a traversal entry on a path if and only if the components of the path are the first ones of a real share that lists the group, at least two or, in the service tree, three of them and not all, or they are the org unit directory of a share that lists it |
| `CompiledMeaning.WayMeans` | cmd/bcpfs-perms/bcpsharing/bcpsharing.go:704-721 | Which directories are on the way to a realpath, by their components |
| `ShareTrees.CompileShareTrees` | cmd/bcpfs-perms/bcpsharing/bcpsharing.go:758-838 | Each org unit that owns or is granted a share has exactly one tree; its sorted files are exactly the expected directories and links |
| `ShareTrees.TreeBuilder.AddShare` | cmd/bcpfs-perms/bcpsharing/bcpsharing.go:782-812 | One share adds its directories and its link to the file map |
| `ShareTrees.SharesAgree` | cmd/bcpfs-perms/bcpsharing/bcpsharing.go:758-838 | After the nesting check no path is written both as directory and as link, so the order of writes does not matter |
| `ShareTrees.BuildIsShareTree` | cmd/bcpfs-perms/bcpsharing/bcpsharing.go:758-838 | The map built by overwriting equals the order-free characterisation of a tree |
| `CompiledMeaning.TreeMeans` | cmd/bcpfs-perms/bcpsharing/bcpsharing.go:758-838 | A file is in the tree of an org unit if and only if it is, for some share of the org unit or listing it, the directory `shared` with the first components of the shared path, or the link with all of them, whose target is one `..` more than there are components and then the path |
| `CompiledMeaning.TreesMean` | cmd/bcpfs-perms/bcpsharing/bcpsharing.go:758-838 | An org unit has a tree if and only if some share lies in it or lists it |
| `ShareTrees.LinkTargetParts` | cmd/bcpfs-perms/bcpsharing/bcpsharing.go:782-793 | A link target is one `..` more than the path has components, followed by the path |
| `FileSystem.WalkDown` | cmd/bcpfs-perms/fsapply/apply-ou.go:99-110 | The kernel's path walk along existing directories appends names |
| `FileSystem.WalkUp` | cmd/bcpfs-perms/bcpsharing/bcpsharing.go:782-793 | Walking up with `..` leads back |
| `FileSystem.StepWellFormed` | cmd/bcpfs-perms/bcpsharingapply/share-trees.go:79-121 | Every mkdir, symlink and remove keeps the tree well-formed |
| `FileSystem.FileSystem.Do` | cmd/bcpfs-perms/bcpsharingapply/share-trees.go:79-121 | One system call with its failure conditions: removing a non-empty directory and creating over an existing path fail |
| `ShareTreesApply.TreeIsLayout` | cmd/bcpfs-perms/bcpsharing/bcpsharing.go:758-838 | A compiled tree is a layout that can be created in sorted order: closed under parents, links without children, parents strictly first |
| `ShareTreesApply.WalkTree` | cmd/bcpfs-perms/bcpsharingapply/share-trees.go:43-77 | The walk, in whatever order it visits, collects exactly the wrong paths and the right ones |
| `ShareTreesApply.RemoveUnexpected` | cmd/bcpfs-perms/bcpsharingapply/share-trees.go:79-89 | Removal in reverse sorted order issues exactly the planned removals |
| `ShareTreesApply.CreateMissing` | cmd/bcpfs-perms/bcpsharingapply/share-trees.go:91-121 | Creation in sorted order issues exactly the planned creations |
| `ShareTreesApply.EnsureShareTree` | cmd/bcpfs-perms/bcpsharingapply/share-trees.go:26-123 | On an existing root, one run never hits a failing system call and leaves exactly the expected directories and link targets, from any content |
| `ShareTreesApply.EnsureShareTrees` | cmd/bcpfs-perms/bcpsharingapply/share-trees.go:13-24 | All trees one after the other reach the combined target |
| `ShareTreesApply.AllTreesInPlace` | cmd/bcpfs-perms/bcpsharingapply/share-trees.go:13-24 | Trees applied first are still in place at the end |
| `ShareTreesApply.AllTargetsOutside` | cmd/bcpfs-perms/bcpsharingapply/share-trees.go:13-24 | Nothing outside the trees changes |
| `ShareTreesApply.CompiledTreesFit` | cmd/bcpfs-perms/bcpsharing/bcpsharing.go:758-838 | What the compiler makes meets what the reconciler needs |
| `Reconcile.PlanSucceeds` | cmd/bcpfs-perms/bcpsharingapply/share-trees.go:79-121 | From any content below an existing root, the plan of reverse-sorted removals and sorted creations succeeds and reaches the target |
| `Reconcile.RemovesSucceed` | cmd/bcpfs-perms/bcpsharingapply/share-trees.go:79-89 | Reverse string order empties every directory before it is removed |
| `Reconcile.CreatesSucceed` | cmd/bcpfs-perms/bcpsharingapply/share-trees.go:91-121 | Ascending order makes parents first |
| `Reconcile.RestartReachesTarget` | cmd/bcpfs-perms/bcpsharingapply/share-trees.go:26-123 | A run that is stopped after any number of steps and started again ends in the same state |
| `Reconcile.PlanEmptyIffFinished` | cmd/bcpfs-perms/bcpsharingapply/share-trees.go:26-123 | The plan is empty if and only if the tree is finished |
| `Reachability.ShareLinkClimbs` | cmd/bcpfs-perms/bcpsharing/bcpsharing.go:782-793 | The leading `..` of a share link lead exactly to the org unit top, for paths of any length |
| `Reachability.ShareLinkResolves` | cmd/bcpfs-perms/bcpsharing/bcpsharing.go:782-793 | Resolving a share link ends where the org unit's service link leads |
| `Reachability.ServiceLinkLeads` | cmd/bcpfs-perms/fsapply/apply-ou.go:92-123 | A service link leads to the org unit's part of the service or, for the operating facility, to its top |
| `Reachability.LandingIsRealpath` | cmd/bcpfs-perms/bcpsharing/bcpsharing.go:400-428 | The landing place is the realpath if and only if the path is not a facility path of a service or the facility owns the service |
| `Reachability.WrongFacilityExample` | cmd/bcpfs-perms/bcpsharing/bcpsharing.go:400-428 | For example, `em-facility/tem/lab` where `tem` belongs to another facility: the link ends in the part of `em-facility` |
| `Reachability.ImportedShareIsReachable` | cmd/bcpfs-perms/bcpsharing/bcpsharing.go:144-187 | End to end: an imported entry has its link in the grantee's tree, the link resolves to the realpath, the ACL there grants at least the mode, and the group may traverse the org unit directory and every directory on the way |
| `GetfaclText.PrintedFilesMean` | cmd/bcpfs-perms/bcpsharing/facl.go:89-155 | What getfacl prints for files, with any two or more comment lines (owner, group, flags), base entries, named users and groups, masks, default entries and comments on effective rights, in any order of ids, never makes the parser panic and parses if and only if no mask cuts an entry; then it lists exactly the named group entries of access and default ACL, file by file, and otherwise parsing fails |
| `GetfaclText.ReadAcls` | cmd/bcpfs-perms/bcpsharingapply/exec.go:25-51 | Printing the ACLs of existing files and parsing the text, with the same condition and result |
| `AclStore.GroupNameOfTag` | cmd/bcpfs-perms/bcpsharing/facl.go:77-80 | The last field of a tag is the group name |
| `SharingAclApply.FaclNeedModify` | cmd/bcpfs-perms/bcpsharingapply/real-shares.go:121-148 | The string comparison says modify exactly if a desired entry is missing, or has another mode, in the access or default ACL |
| `SharingAclApply.FaclGroupsToRemove` | cmd/bcpfs-perms/bcpsharingapply/real-shares.go:150-172 | The groups to remove are the present ones, access or default, minus desired minus additional, sorted |
| `SharingAclApply.EnsureFacl` | cmd/bcpfs-perms/bcpsharingapply/real-shares.go:55-115 | One share issues exactly the commands that its listing calls for |
| `SharingAclApply.EnsureRealShares` | cmd/bcpfs-perms/bcpsharingapply/real-shares.go:12-53 | The loop works on one snapshot of all ACLs, printed and parsed before it, and issues exactly the commands computed from it; it fails exactly if the text cannot be parsed. What the commands do is said by `RealSharesExact.RealSharesAreExact` for the directory of a share and by `SharesBelow.SharesReachBelow` for everything in it |
| `RealSharesExact.RealSharesAreExact` | cmd/bcpfs-perms/bcpsharingapply/real-shares.go:12-172 | Every existing share ends exact: desired groups have their last listed mode as access and default entry, groups neither desired nor managing have none, managing groups are untouched; nothing outside the shares changes. The snapshot stays valid because the shares lie apart |
| `RealSharesExact.AfterFaclExact` | cmd/bcpfs-perms/bcpsharingapply/real-shares.go:55-172 | The same for one directory |
| `SharesBelow.SharesReachBelow` | cmd/bcpfs-perms/bcpsharingapply/exec.go:74-140 | An existing share and everything below it after the run: if the directory of the share missed something, each desired group has its last listed mode, on a directory as access and default entry and on a file without `x` as access entry; groups that had an entry at the share and are neither desired nor managing have none; every other entry, the owning group, the named users and an existing mask are as before |
| `SharesOnDisk.GroupsOnDisk` | cmd/bcpfs-perms/bcpsharingapply/real-shares.go:12-172 | The entries of an existing share by their names on disk: every listed org unit has its last listed mode, the groups that manage the path keep what they had, and no other group has an entry |
| `TraversalApply.EnsureTraversal` | cmd/bcpfs-perms/bcpsharingapply/traversal.go:10-68 | Batching by group, in whatever map order, issues one command per group with exactly the pending paths, and no empty one; fails exactly if the listing cannot be parsed |
| `TraversalExact.TraversalIsExact` | cmd/bcpfs-perms/bcpsharingapply/traversal.go:10-68 | What a run does to every ACL: on an existing directory, the groups that its traversal entries name have `--x` as access entry; every other entry, the default ACL, the owning group, the named users and an existing mask are as before, and no file comes or goes |
| `SharingFixpoint.SharingPassFixpoint` | cmd/bcpfs-perms/main.go:180-196 | After a whole pass, neither part has anything left to set or remove if and only if every entry of every existing share is stable: its mode is the one listed last and, on a traversal directory, `--x` |
| `SharingFixpoint.FixpointWithoutWholeOrgUnits` | cmd/bcpfs-perms/main.go:180-196 | If all exports have at least two components, nothing is left to set or remove if and only if no existing share lists two modes for one group |
| `SharingFixpoint.SharingPass` | cmd/bcpfs-perms/main.go:180-196 | Both parts in a row: ends without error exactly if the shares can be read before and the traversal directories after the first part; issues no command exactly if nothing is left to do |
| `SharingFixpoint.SecondPassIdle` | cmd/bcpfs-perms/main.go:180-196 | After a pass without error, a second pass ends without error and without a command if and only if every entry of every existing share is stable and the masks of all existing shares and traversal directories cover the modes set there |
| `SharingFixpoint.TwoPasses` | cmd/bcpfs-perms/main.go:180-196 | The same on the result flags and the command traces of two runs |
| `SharingFixpoint.WholeOrgUnitUnsettled` | cmd/bcpfs-perms/bcpsharing/bcpsharing.go:693-748 | Exporting an existing org unit directory as a whole with read or write access is never a fixpoint |
| `SharingFixpoint.WholeOrgUnitExample` | cmd/bcpfs-perms/bcpsharing/bcpsharing.go:693-748 | For example, `lab` exported with `r-x` to `guests` |
| `SharingFixpoint.GrantOnDisk` | cmd/bcpfs-perms/bcpsharingapply/real-shares.go:12-172 | After a pass, the named entry of a grantee on an existing share is the mode that the share lists last or, on a traversal directory, `--x`; so it grants an entry exactly if that covers it |
| `SharingFixpoint.UnionOnDisk` | cmd/bcpfs-perms/bcpsharingapply/real-shares.go:12-172 | If every export of the realpath lists each group once and the org unit is not shared as a whole, the entry on disk gives a grantee exactly the bits that are imported for the realpath |
| `SharingFixpoint.TwoModesExample` | cmd/bcpfs-perms/bcpsharingapply/real-shares.go:12-172 | For example, a share that lists a group with `r--` and then `-w-`: reading is compiled, and the entry on disk is `-w-` |
| `SharingFixpoint.TraversalOnDisk` | cmd/bcpfs-perms/bcpsharingapply/traversal.go:10-68 | After a pass, every existing directory with a traversal entry has it on disk |
| `SharingFixpoint.MaskStays` | cmd/bcpfs-perms/bcpsharingapply/exec.go:92-106 | A pass keeps the masks of its shares and traversal directories |
| `SharingFixpoint.TraversalSettles` | cmd/bcpfs-perms/bcpsharingapply/traversal.go:10-68 | Traversal alone settles after one run |
| `SharingFixpoint.EntryOnShare` | cmd/bcpfs-perms/bcpsharing/bcpsharing.go:693-748 | A traversal entry on a share exists only where an org unit is exported as a whole |
| `SharingFixpoint.RereadableIff` | cmd/bcpfs-perms/bcpsharingapply/exec.go:92-106 | Because setfacl runs with `-n`, the ACL of an applied share can be read again if and only if the masks cover all granted modes |
| `SharingFixpoint.CutShareStopsNextRun` | cmd/bcpfs-perms/bcpsharing/facl.go:138-155 | A read-write share under an `r-x` mask: the next run cannot parse what getfacl prints |
| `PosixAcl.PutSpec` | cmd/bcpfs-perms/fsapply/apply-sh.go:66-80 | Setting a named entry replaces or adds exactly that entry |
| `PosixAcl.DelSpec` | cmd/bcpfs-perms/fsapply/apply-sh.go:75-78 | Deleting a named entry removes exactly that entry |
| `DirScripts.ModifyBlock` | cmd/bcpfs-perms/fsapply/apply-sh.go:60-73 | What one block for `setfacl -M` with a mask line makes of an ACL |
| `DirScripts.HalfResult` | cmd/bcpfs-perms/fsapply/apply-sh.go:52-147 | The entries after `-M` and `-X`: entitled groups have the mode, removed groups are gone, others are kept; without `-X` the mask is the listed one, with `-X` it is recalculated and equals the listed one exactly if all others fit under it |
| `ScriptsMeetCheck.ScriptMeetsCheck` | cmd/bcpfs-perms/fsapply/apply-sh.go:36-392 | For each of the eight directory scripts: afterwards the text comparison of the checker passes if and only if before there were no named users, unrelated groups fit under the mask where `-X` recalculates it, a service directory had no set-group-id bit, and a toplevel directory had no extended entries; for distinct gids |
| `ScriptsMeetCheck.ScriptLeavesExpected` | cmd/bcpfs-perms/fsapply/apply-sh.go:52-147 | The same on entries instead of text |
| `ScriptsMeetCheck.ScriptKeepsOtherEntries` | cmd/bcpfs-perms/fsapply/apply-sh.go:33-35 | Entries of groups that a script does not name, such as traversal entries, survive |
| `ScriptsMeetCheck.ScriptIdempotent` | cmd/bcpfs-perms/fsapply/apply-sh.go:36-392 | Running any of the eight directory scripts again changes nothing |
| `ScriptsMeetCheck.WideEntryFailsCheck` | cmd/bcpfs-perms/fsapply/apply-sh.go:52-80 | For every script with `setfacl -X`: an unrelated entry that exceeds the mask makes the check fail right after the script |
| `ScriptsMeetCheck.PassesIffExpected` | cmd/bcpfs-perms/fsck/acl.go:30-67 | The text comparison passes if and only if the ACL without unrelated named groups is the expected ACL |
| `ScriptsMeetCheck.AclTextInjective` | cmd/bcpfs-perms/fsck/acl.go:105-117 | The printed text determines owner, group, set-group-id bit and all entries |
| `ScriptsMeetCheck.ExpectedText` | cmd/bcpfs-perms/fsck/acl.go:127-381 | FACLString is what getfacl prints for the expected ACL, with gids in order |
| `FsckAcl.RejectOtherNamedGroupEntries` | cmd/bcpfs-perms/fsck/acl.go:71-80 | The line loop keeps exactly the lines that the filter does not reject |
| `FsckAcl.NamedLineStays` | cmd/bcpfs-perms/fsck/acl.go:82-103 | A named group line is dropped if and only if its gid is not listed: no gid matches inside another one |
| `FsckAcl.TextFilterIsGidFilter` | cmd/bcpfs-perms/fsck/acl.go:71-103 | The filter on the printed text is filtering the entries by gid |
| `FreshScripts.FreshScript` | cmd/bcpfs-perms/fsapply/apply-sh.go:52-392 | mkdir, which inherits the parent's default ACL, followed by the script gives exactly the expected ACL |
| `FreshScripts.RerunScript` | cmd/bcpfs-perms/fsapply/apply-sh.go:36-392 | The script of a directory that is as expected changes nothing |
| `FsApply.Disk.RunBash` | cmd/bcpfs-perms/fsapply/apply-sh.go:428-433 | One script: mkdir unless the path leads to a directory, then the ACL of that directory |
| `FsApply.Disk.EnsureSymlink` | cmd/bcpfs-perms/fsapply/apply-ou.go:111-122 | A link is made unless it is there; an existing path is an error |
| `FsApply.Disk.ListDir` | cmd/bcpfs-perms/fsapply/apply-ou.go:133-137 | Children in ascending order with their types |
| `FsApply.Disk.RemoveUnexpected` | cmd/bcpfs-perms/fsapply/apply-srv.go:113-156 | The clean-up loop; a directory that is not empty stays, every other failure stops the run |
| `FsApply.ServiceTree.EnsureServiceDirs` | cmd/bcpfs-perms/fsapply/apply-srv.go:25-46 | Runs the scripts of all service directories and stops at the first error |
| `FsApply.ServiceTree.EnsureServiceOrgUnitDirs` | cmd/bcpfs-perms/fsapply/apply-srv.go:48-52 | All services one after the other under a sticky error |
| `FsApply.ServiceTree.EnsureSrvSubdirs` | cmd/bcpfs-perms/fsapply/apply-srv.go:54-78 | The accepted org units of a service, then the clean-up; `ServiceCleanUp.ServiceStage` says what is left |
| `FsApply.OrgUnitTree.EnsureOrgUnitDirs` | cmd/bcpfs-perms/fsapply/apply-ou.go:25-40 | Runs the scripts of all org unit directories and stops at the first error |
| `FsApply.OrgUnitTree.EnsureOuLinks` | cmd/bcpfs-perms/fsapply/apply-ou.go:70-90 | The accepted services of an org unit, then the clean-up |
| `FsApply.OrgUnitTree.EnsureOuSLn` | cmd/bcpfs-perms/fsapply/apply-ou.go:92-123 | The link of one service, to its top for the operating facility |
| `FsApply.OrgUnitTree.EnsureOrgUnitServiceLinks` | cmd/bcpfs-perms/fsapply/apply-ou.go:64-68 | All org units one after the other under a sticky error |
| `FsApply.OrgUnitTree.EnsureOrgUnitSubdirs` | cmd/bcpfs-perms/fsapply/apply-ou.go:179-211 | The additional directories of all org units under a sticky error |
| `FsApply.EnsurePermissions` | cmd/bcpfs-perms/fsapply/fsapply.go:26-83 | The whole run equals the specified composition of steps, also where it stops with an error; what it leaves is said by `ServiceCleanUp`, `OrgUnitCleanUp`, `ApplyLinks` and `AppliedAcls` |
| `ApplySteps.WalkGrows` | cmd/bcpfs-perms/fsapply/apply-ou.go:163-175 | A path that leads somewhere leads to the same place in a larger tree |
| `ApplySteps.WalkMeets` | cmd/bcpfs-perms/fsapply/apply-ou.go:163-175 | A path that leads somewhere in two trees that do not contradict each other leads to the same place, through what both have |
| `ApplySteps.ResolvePlain` | cmd/bcpfs-perms/fsapply/fsapply.go:100-109 | A path without links names itself if it exists and nothing otherwise |
| `ApplySteps.RmUnexpectedSpec` | cmd/bcpfs-perms/fsapply/apply-ou.go:125-159 | A clean-up removes only unexpected children of the directory it reads |
| `ApplySteps.RmUnexpectedComplete` | cmd/bcpfs-perms/fsapply/apply-ou.go:125-159 | A clean-up without error removes every unexpected child except directories that are not empty |
| `ServiceCleanUp.CleanUpNeverFails` | cmd/bcpfs-perms/fsapply/apply-srv.go:113-156 | Cleaning an existing service directory never fails, whatever is in it; in particular a directory with content just stays |
| `ServiceCleanUp.ServiceStage` | cmd/bcpfs-perms/fsapply/apply-srv.go:54-156 | One service whose directory exists: without an error, accepted org units have their directories or what was there, every other empty directory is gone, everything else stays, and nothing changes elsewhere; it fails exactly if one of its scripts does |
| `ServiceCleanUp.ServicesFailIff` | cmd/bcpfs-perms/fsapply/apply-srv.go:48-78 | All services: the step fails if and only if one of the scripts fails |
| `ServiceCleanUp.AppliedCleansServices` | cmd/bcpfs-perms/fsapply/fsapply.go:26-83 | The whole run: from any well-formed tree in which the service directories are reached through no link, and no org unit leads into one of them, a run without error leaves in every service directory what the accepted org units need, no other directory that was empty, and everything else as it was; at most explicit links are added |
| `ServiceCleanUp.PlainRunCleansServices` | cmd/bcpfs-perms/fsapply/fsapply.go:26-83 | In particular where no service or org unit directory is, or lies below, a link |
| `OrgUnitCleanUp.AppliedCleansOrgUnits` | cmd/bcpfs-perms/fsapply/fsapply.go:26-83 | In every org unit directory, such a run leaves the link of every service that the org unit uses, removes all other links, and keeps directories and files; at most additional directories and explicit links are added |
| `AppliedAcls.AclsMade` | cmd/bcpfs-perms/fsapply/fsapply.go:26-83 | From any well-formed tree in which no managed directory is, or lies below, a link, a run without error leaves every managed directory with the ACL that its script makes of the one that was there before or, for a new directory, of what it inherits from its parent; no other ACL changes |
| `AppliedCheck.AppliedAclsPassIff` | cmd/bcpfs-perms/fsapply/fsapply.go:26-83 | Such a run passes the check of the ACLs if and only if the root directory is as it should be and every managed directory suited its script, as it was before or as its parent made it |
| `AppliedCheck.NewDirInherits` | cmd/bcpfs-perms/fsapply/apply-sh.go:33-80 | A directory that the run made has, besides what its script says, exactly the unrelated group entries of its parent's default ACL, as access and default entries |
| `AppliedCheck.InheritedUserFails` | cmd/bcpfs-perms/fsapply/apply-sh.go:33-80 | So a named user in the default ACL of the parent makes the check of the new directory fail |
| `ApplySteps.LinkJobsPass` | cmd/bcpfs-perms/fsapply/fsapply.go:71-80 | Links made without error are in place at the end |
| `FsCheck.ServiceDirsList` | cmd/bcpfs-perms/fsck/srvtree.go:20-42 | The expected service directories |
| `FsCheck.ServiceOrgUnitDirsList` | cmd/bcpfs-perms/fsck/srvtree.go:44-86 | The expected directories of org units below services, for accepted pairs |
| `FsCheck.OrgUnitDirsList` | cmd/bcpfs-perms/fsck/outree.go:21-38 | The expected org unit directories |
| `FsCheck.OrgUnitServiceLinksList` | cmd/bcpfs-perms/fsck/outree.go:40-77 | The expected service links, for accepted pairs |
| `FsCheck.OrgUnitSubdirsList` | cmd/bcpfs-perms/fsck/outree.go:79-107 | The expected additional directories |
| `FsCheck.CheckNoUnexpected` | cmd/bcpfs-perms/fsck/unexpected.go:15-49 | Passes exactly if every listed path is an entry or an explicit link; an error exactly if the subtree is missing; what is listed is said by `FsCheck.FoundMeans` |
| `FsCheck.FoundMeans` | cmd/bcpfs-perms/fsck/unexpected.go:47-49 | In a well-formed tree, the listing of a directory that is reached through no link is that directory, its children and their children, and nothing else |
| `CheckMeaning.ListedMeans` | cmd/bcpfs-perms/fsck/srvtree.go:20-85 | A path is an entry if and only if it is a toplevel directory, a service or org unit directory, or the directory or link of an accepted pair, or an additional directory |
| `CheckMeaning.UnexpectedMeans` | cmd/bcpfs-perms/fsck/unexpected.go:15-49 | So the check of a subtree passes if and only if every path down to two levels below it is one of these or an explicit link |
| `CheckMeaning.UnexpectedExample` | cmd/bcpfs-perms/fsck/unexpected.go:15-49 | For example, a directory `old` of service `mic`, for which no org unit is accepted, makes it fail |
| `FsCheck.CheckSymlinks` | cmd/bcpfs-perms/fsck/symlinks.go:9-29 | Passes exactly if every expected link is a link with the expected target |
| `CheckMeaning.LinksMean` | cmd/bcpfs-perms/fsck/outree.go:40-77 | It passes if and only if every accepted pair has its link, with target components `..`, `..`, service directory and service and, unless the org unit operates the service, the org unit |
| `FsCheck.CheckExplicitSymlinks` | cmd/bcpfs-perms/fsck/symlinks.go:34-52 | The same for the explicit links |
| `CheckMeaning.ExplicitMeans` | cmd/bcpfs-perms/fsck/symlinks.go:34-52 | It passes if and only if every configured link that no later one replaces is in place |
| `FsCheck.CheckACLs` | cmd/bcpfs-perms/fsck/acl.go:30-67 | Passes exactly if every expected directory exists and its filtered text is the expected one |
| `AclMeaning.PassesMean` | cmd/bcpfs-perms/fsck/acl.go:30-125 | A directory passes if and only if owner, group, set-group-id bit and base entries are the expected ones, there are no named users, the mask is the expected one, and of the groups with a role exactly the entitled ones have an entry, with the expected mode; the same for the default ACL |
| `AclMeaning.LeftSuperEntryFails` | cmd/bcpfs-perms/fsck/acl.go:151-215 | For example, an entry of the super group that is left on a service directory with the policy per service is reported |
| `CheckMeaning.AclsMean` | cmd/bcpfs-perms/fsck/acl.go:30-67 | The check passes if and only if every directory that it is about leads to something with the ACL that is wanted there |
| `CheckMeaning.MissingReported` | cmd/bcpfs-perms/fsck/acl.go:30-67 | If a directory that is managed is missing, the check fails |
| `FsCheck.CheckPermissions` | cmd/bcpfs-perms/fsck/fsck.go:33-146 | Each failure is reported exactly if its check fails; an error exactly if a subtree is missing. On subtrees that are directories reached through no link there is no error, and the two checks for unexpected paths are said of the paths down to depth two; a missing directory makes the ACL check fail |
| `ApplyLinks.AppliedLinkIff` | cmd/bcpfs-perms/fsapply/fsapply.go:26-83 | Which service links a run without error leaves: the link of an org unit is found at the end if and only if the walk to its directory uses no link that the link stage removes, and the last org unit in the same directory uses the service with the same target or an explicit link is put there with that target. Holds from every tree in which the walks need no link that lies directly in a directory shared by two org units and nothing takes the place of a removed link |
| `ApplyLinks.AppliedLinksPassIff` | cmd/bcpfs-perms/fsapply/fsapply.go:26-83 | From such a tree, a run without error passes the check of all service links if and only if each of them is found |
| `ApplyLinks.AppliedLinksPassApart` | cmd/bcpfs-perms/fsapply/fsapply.go:26-83 | For distinct org units and facilities, with no explicit link in an org unit directory, it passes if and only if, for every org unit with services, the walk uses no removed link and no later org unit shares its directory |
| `ApplyLinks.FinalWalk` | cmd/bcpfs-perms/fsapply/fsapply.go:26-83 | After the run, the walk to an org unit directory leads to the same directory if it uses no removed link, and nowhere otherwise |
| `ApplyLinks.OuDirsLead` | cmd/bcpfs-perms/fsapply/apply-ou.go:25-40 | Without an error, the path of every org unit leads to a directory before the link stage, also through links |
| `ApplyLinks.AloneRun` | cmd/bcpfs-perms/fsapply/fsapply.go:26-83 | So every run without error whose org units have directories of their own is covered |
| `ApplyLinks.IndependentRun` | cmd/bcpfs-perms/fsapply/fsapply.go:26-83 | Where no walk uses a link directly in an org unit directory, every walk stays, whatever is added later |
| `ExplicitLinks.PlainLinksPassIff` | cmd/bcpfs-perms/fsapply/fsapply.go:26-83 | If the paths of the explicit links run through no link, neither of the start tree nor of the run, the condition is one on the start tree and the configuration: each service link is kept or configured as an explicit link at its place with its target |
| `ExplicitLinks.PlainLinksPassApart` | cmd/bcpfs-perms/fsapply/fsapply.go:26-83 | The form for distinct org units and facilities, if besides no explicit path lies directly in an org unit directory |
| `ExplicitLinks.NothingReplaced` | cmd/bcpfs-perms/fsapply/fsapply.go:26-83 | Nothing takes the place of a removed link if no additional directory and no explicit link has the path of a link in an org unit directory |
| `ApplyLinks.AppliedExplicitPass` | cmd/bcpfs-perms/fsapply/fsapply.go:26-83 | From any tree whatsoever, a run without error passes the check of the explicit links |
| `ApplyLinks.AppliedLinksPass` | cmd/bcpfs-perms/fsapply/fsapply.go:26-83 | In particular both checks pass where no org unit directory is, or lies below, a symbolic link |
| `ApplyLinks.LinksStage` | cmd/bcpfs-perms/fsapply/apply-ou.go:64-159 | After the link stage, a directory holds exactly the links of the last org unit that leads there: all of its services are linked, and no other link is left |
| `ApplyLinks.DestsDiffer` | cmd/bcpfs-perms/fsapply/apply-ou.go:99-110 | Two org units link a service with the same target only if both operate it |
| `AliasedOrgUnit.AliasFailsCheck` | cmd/bcpfs-perms/fsapply/apply-ou.go:64-159 | A whole run from a tree in which `<org>/a` is a link to `b`, for org units `a` and `b` in this order and a service that only `a` uses: the run ends without error, and the check of the same configuration fails |
| `FreshApply.FreshHasNoUnexpected` | cmd/bcpfs-perms/fsck/unexpected.go:15-44 | Below an empty root, for every organization and filter, an apply run without error leaves no unexpected path, if no explicit link is placed through another link |
| `FreshApply.FreshApplyPasses` | cmd/bcpfs-perms/fsck/fsck.go:33-146 | Below an empty root, an apply run without error passes both checks for unexpected paths and both symlink checks |
| `FreshApplyAcls.FreshParts` | cmd/bcpfs-perms/fsapply/fsapply.go:26-70 | Below an empty root, everything before the explicit links succeeds, and every directory ends with exactly the expected ACL |
| `FreshApplyAcls.FreshAclsPass` | cmd/bcpfs-perms/fsck/acl.go:30-67 | Below an empty root, all directories pass the ACL check, whatever becomes of the explicit links |
| `FreshApplyAcls.ApplyImpliesCheck` | cmd/bcpfs-perms/fsck/fsck.go:33-146 | Apply implies check: after an apply run without error below an empty root, all five checks pass |
| `FreshApplyAcls.ApplyThenCheck` | cmd/bcpfs-perms/main.go:143-231 | Both programs in a row: no failures are reported, and without explicit links the apply run cannot fail |
| `Deployment.AppliedLink` | cmd/bcpfs-perms/fsapply/apply-ou.go:92-123 | An apply run without error, from the trees of `ApplyLinks.AppliedLinkIff`, leaves every service link that is kept, with the target that the sharing links rely on |
| `Deployment.TargetsWellFormed` | cmd/bcpfs-perms/bcpsharingapply/share-trees.go:13-24 | Bringing the trees in place below existing roots keeps the file tree well-formed |
| `Deployment.SharesWorkAfterApply` | cmd/bcpfs-perms/main.go:143-206 | The whole system: after such an apply run and the sharing pass and trees on top, every imported share (of a service whose link is kept, or elsewhere outside the share trees) leads from the grantee's tree to the realpath; there the named entry on disk is the mode that the compiled share lists last, or `--x` where the org unit is shared as a whole; it covers the imported mode if the group is listed once, and is exactly the union of all imported modes if every export of the realpath lists each group once; it counts as far as the mask lets it; the org unit directory and every directory on the way have the traversal entry on disk |
| `Groups.DedupGroups` | cmd/bcpfs-perms/grp/grp.go:84-127 | Fails if and only if two input groups agree on exactly one of name and gid; otherwise returns the first occurrences |
| `Groups.FirstsSpec` | cmd/bcpfs-perms/grp/grp.go:84-127 | The first occurrences are the same set of groups without duplicates |
| `Groups.DedupIsBijective` | cmd/bcpfs-perms/grp/grp.go:84-127 | In the result, name and gid determine each other |
| `Groups.SelectGroups` | cmd/bcpfs-perms/grp/grp.go:55-80 | The loops select the groups with one of the prefixes or names, in order |
| `Groups.SortGroups` | cmd/bcpfs-perms/main.go:285-287 | Sorting by name keeps exactly the same groups, and the result is the only one |
| `Groups.NewGroupMap` | cmd/bcpfs-perms/bcp/groups.go:18-29 | The map by name; a later group replaces an earlier one |
| `Groups.LastOfName` | cmd/bcpfs-perms/bcp/groups.go:18-29 | Lookup by name finds the last group of that name |
| `Bcp.New` | cmd/bcpfs-perms/bcp/bcp.go:166-190 | Succeeds if and only if directory names are distinct, configured facilities have groups, and configured services have a valid policy, super group and ops group; a service or org unit cannot miss its own group; `OrganizationMeaning.NewMeans` and `OrganizationMeaning.SuccessMeans` say this without the specification functions |
| `Bcp.OusHaveGroups` | cmd/bcpfs-perms/bcp/bcp.go:366-388 | The not-found error for org unit groups is unreachable |
| `Bcp.ServicesComplete` | cmd/bcpfs-perms/bcp/bcp.go:241-310 | The not-found error for service groups is unreachable; all other errors are characterised |
| `Bcp.ParseServices` | cmd/bcpfs-perms/bcp/bcp.go:200-311 | The service loop, with the unconfigured services in order; `OrganizationMeaning.ServicesMean` and `OrganizationMeaning.UnconfiguredMeans` say which services these are |
| `Bcp.ParseOrgUnits` | cmd/bcpfs-perms/bcp/bcp.go:313-389 | The org unit loop; fails exactly on duplicate directory names or a missing group |
| `Bcp.CheckDirs` | cmd/bcpfs-perms/bcp/bcp.go:322-359 | A section is accepted exactly if no directory name occurs twice in both lists together |
| `Bcp.ServicesAreConfigured` | cmd/bcpfs-perms/bcp/bcp.go:241-310 | Services are the configured service names in the order of the groups |
| `Bcp.SelectPartition` | cmd/bcpfs-perms/bcp/bcp.go:241-310 | Every service name is in exactly one of the two lists, and none is lost |
| `Bcp.FacilitiesAreOus` | cmd/bcpfs-perms/bcp/bcp.go:391-397 | The facilities are the org units flagged as facilities, in order |
| `Bcp.NamesDistinct` | cmd/bcpfs-perms/bcp/bcp.go:400-426 | Distinct group names give distinct org unit and service names |
| `Bcp.ServiceFacts` | cmd/bcpfs-perms/bcp/bcp.go:241-310 | A service has its own group and an ops group with another gid, a valid policy, and the super group where the policy needs it |
| `OrganizationMeaning.PolicyMeans` | cmd/bcpfs-perms/bcp/bcp.go:138-149 | The three accepted names of policies, and which policy each of them is |
| `OrganizationMeaning.ServicesMean` | cmd/bcpfs-perms/bcp/bcp.go:200-311 | The services are exactly those with a group `<prefix>_<name>` that is no ops group and a section that lists the name: facility, policy and ops group are those of the last such section, the policy being all org units exactly if it says `allOrgUnits` and per service exactly if it says `perService` or nothing; the super group is the configured one |
| `OrganizationMeaning.ServicesInOrder` | cmd/bcpfs-perms/bcp/bcp.go:200-311 | They come in the order of their groups |
| `OrganizationMeaning.UnconfiguredMeans` | cmd/bcpfs-perms/bcp/bcp.go:200-311 | A service name is reported as unconfigured exactly if no section lists it |
| `Bcp.OuFacts` | cmd/bcpfs-perms/bcp/bcp.go:366-388 | An org unit carries its group, distinct directory names, and the facility flag that its name says |
| `OrganizationMeaning.OusMean` | cmd/bcpfs-perms/bcp/bcp.go:313-389 | The org units are exactly those with a group `<prefix>_<name>`; facility flag and facility are what the name says; the additional directories are those of the last section of that name, first the ones with a policy and then the old-style ones with the policy for the group, and none without a section |
| `OrganizationMeaning.OusInOrder` | cmd/bcpfs-perms/bcp/bcp.go:313-389 | They come in the order of their groups |
| `OrganizationMeaning.SuccessMeans` | cmd/bcpfs-perms/bcp/bcp.go:166-190 | New succeeds if and only if no section names a directory twice, every facility has its org unit group, and the section of every service group is usable: policy `perService`, `allOrgUnits` or none, the ops group there, and the super group configured where `allOrgUnits` needs it and there where it is configured |
| `OrganizationMeaning.NewMeans` | cmd/bcpfs-perms/bcp/bcp.go:166-190 | What New returns, all at once: services, org units and facilities |
| `Bcp.FacilityByName` | cmd/bcpfs-perms/fsapply/apply-ou.go:99-101 | An org unit operates a service exactly if its name is the facility of the service with the suffix |
| `OrganizationFits.LoadedFits` | cmd/bcpfs-perms/main.go:262-296 | In the loaded groups, name and gid determine each other, and no relevant group is lost |
| `OrganizationFits.LoadOrganization` | cmd/bcpfs-perms/main.go:262-296 | Selecting, deduplicating, sorting and parsing in a row, said of the group database and the configuration alone: it succeeds if and only if relevant groups agree in name and gid and the conditions of `OrganizationMeaning.SuccessMeans` hold, the services, org units and facilities are the ones that the database and the configuration mean, and the organization is then valid for every apply run under the conditions of `ParsedIsValid` |
| `OrganizationFits.ParsedIsValid` | cmd/bcpfs-perms/bcp/bcp.go:166-190 | What is parsed from groups without conflicts or duplicates meets everything that the apply theorems need (`World.Valid`, `OwnTargets`), if the names are clean, no group is for an org unit and a service, the super group is for neither, and no additional directory is named like a service of its org unit |
| `OrganizationFits.AgreeIff` | cmd/bcpfs-perms/bcpsharing/bcpsharing.go:273-293 | The sharing part and the apply part mean the same target of a service link if and only if the configured facility suffix is `facility` or the org unit is not the facility by either name |
| `OrganizationFits.OtherSuffixExample` | cmd/bcpfs-perms/bcpsharing/bcpsharing.go:273-293 | For example, suffix `fac` and org unit `em-fac`: the apply part makes it the operating facility, and the sharing part does not |
| `OrganizationFits.SharingViewValid` | cmd/bcpfs-perms/bcpsharing/bcpsharing.go:273-293 | The maps of the sharing part fit each other for every configuration |
| `OrganizationFits.EveryOrgGroup` | cmd/bcpfs-perms/bcp/bcp.go:366-388 | Every org unit group of the database has its org unit |
| `FaclText.ParseInvertsString` | cmd/bcpfs-perms/bcpsharing/facl.go:73-155 | A line parses to an entry if and only if it is the printed entry and the tag is one that the regular expression accepts |
| `FaclMeaning.EntryLineMeans` | cmd/bcpfs-perms/bcpsharing/facl.go:138-155 | A line is an entry if and only if it is a tag, a colon and three letters or dashes, the tag being `user`, `group`, `mask` or `other:` and anything without whitespace, perhaps after `default:` |
| `FaclText.EffectiveFails` | cmd/bcpfs-perms/bcpsharing/facl.go:138-155 | A line with a comment on effective rights does not parse |
| `FaclText.ParseGetfaclText` | cmd/bcpfs-perms/bcpsharing/facl.go:93-106 | The paragraph loop, with errors and panics; it panics on a text exactly if its paragraphs say so |
| `FaclMeaning.TextMeans` | cmd/bcpfs-perms/bcpsharing/facl.go:89-106 | Whitespace around a text does not matter, and lines of whitespace, however many, separate its paragraphs |
| `FaclText.AllPanicsIff` | cmd/bcpfs-perms/bcpsharing/facl.go:93-136 | The paragraphs of a text make the parser panic if and only if the first one that is not parsed has a header and fewer than four lines, and give an error if and only if the first one that is not parsed is an error |
| `FaclText.ParseGetfaclParagraph` | cmd/bcpfs-perms/bcpsharing/facl.go:108-136 | The line loop of one paragraph |
| `FaclMeaning.ParagraphMeans` | cmd/bcpfs-perms/bcpsharing/facl.go:108-136 | A paragraph is read as a path and entries if and only if it has at least four lines, the first is the header with the path, and the lines that are no comments are these entries, in order |
| `FaclText.ParsePrinted` | cmd/bcpfs-perms/bcpsharing/facl.go:89-155 | Parsing the output for a list of files, each with a header and at least three further lines, gives exactly their paths and entries in order if no line has a comment on effective rights, and fails otherwise |
| `FaclText.ShortParagraphPanics` | cmd/bcpfs-perms/bcpsharing/facl.go:121-121 | In particular, a header with fewer than three further lines makes the parser panic if everything before is parsed, and is hidden behind an earlier error |
| `Quota.PrintLimits` | internal/suc/quotad/quotad.go:128-136 | The printed batch is the concatenation of the lines |
| `Quota.Parse` | cmd/bcpctl/internal/quota/quota.go:21-62 | The scanner loop, including the silent stop at an overlong line |
| `QuotaMeaning.LineMeans` | cmd/bcpctl/internal/quota/quota.go:34-58 | A line gives these limits if and only if it consists of the id and four numbers below 2^64 in decimal digits, with whitespace between them and perhaps around them |
| `QuotaMeaning.OneLine` | cmd/bcpctl/internal/quota/quota.go:21-62 | Empty lines and comments give nothing, also before a carriage return; a line that spells limits gives these; any other line is an error |
| `QuotaMeaning.ReadsInOrder` | cmd/bcpctl/internal/quota/quota.go:21-62 | Lines are read one after the other: the result of a text is the concatenation of the results of its parts, or an error if one of them is |
| `QuotaMeaning.AcceptedIff` | cmd/bcpctl/internal/quota/quota.go:21-62 | A text without overlong lines is accepted if and only if every line is empty, a comment or spells limits |
| `QuotaMeaning.OverlongEnds` | cmd/bcpctl/internal/quota/quota.go:21-62 | An overlong line silently ends the text |
| `QuotaMeaning.ScanMeans` | cmd/bcpctl/internal/quota/quota.go:21-27 | The lines of a text are those that end with a newline, and the rest if there is one |
| `Quota.ParsePrinted` | cmd/bcpctl/internal/quota/quota.go:21-62 | Parsing printed limits yields exactly the limits up to the first line that reaches the scanner limit, without those whose id starts with `#` |
| `Quota.RoundTrip` | cmd/bcpctl/internal/quota/quota.go:21-62 | The round trip is the identity if and only if no id starts with `#` and no line reaches the limit, for all 64-bit values |
| `Quota.Reparse` | cmd/bcpctl/internal/quota/quota.go:21-62 | Printing what was parsed and parsing again is the identity if and only if no id starts with `#` |
| `Quota.CommentLikeId` | cmd/bcpctl/internal/quota/quota.go:31-33 | Why: after a space, a line whose id starts with `#` is accepted, but printed it is a comment |
| `Decimal.ValueDec` | internal/suc/quotad/quotad.go:128-136 | Reading a printed number gives the number |

## Left out

- `ApplyLinks.AppliedLinksPassIff`: presupposes that the walks to org unit directories need no link that lies directly in a directory shared by two org units, because one of them can remove it and the other make it again with another target, and that nothing takes the place of a link that is removed, for which `ExplicitLinks.NothingReplaced` gives a condition on the configuration
- `GetfaclText.PrintedFilesMean`: file names contain no newline and names of users and groups no colon or whitespace; getfacl escapes backslashes and control characters in file names, which the parser does not undo
- `ScriptsMeetCheck.ScriptMeetsCheck`: presupposes distinct gids in the roles of a script; set-user-id and sticky bits, which getfacl also prints, are not part of the ACL state
- `FreshApplyAcls.ApplyImpliesCheck`: presupposes that no path contains a newline; getfacl escapes newlines, carriage returns and backslashes in file names, and the checker does not
- `ShareTreesApply.EnsureShareTree`: the tree root itself is not reached through a symbolic link, and permissions never make a system call fail
- `SharingAclApply.EnsureRealShares`: shares are not reached through symbolic links, and setfacl itself does not fail
- `Compiler.Compile`: starts after the parsing of rules and ACL strings; `Compiler.CompileExports` is the step before it, and the order in which errors are reported is not modelled
- `AppliedAcls.AclsMade`: presupposes that no managed directory is, or lies below, a symbolic link, and that no additional directory of an org unit has the name of one of its services; where org unit directories are links, `ApplyLinks` says what becomes of the links, but nothing says whose script is the last one on a directory that two paths lead to
- `ServiceCleanUp.AppliedCleansServices`: presupposes that no org unit directory leads into a service directory, where the clean-up of links and the additional directories would work too
- `Bcp.New`: messages are not modelled; directory policies are already validated, an invalid one makes the program panic
- `Quota.Parse`: whitespace is ASCII whitespace; Unicode spaces in ids are not modelled
- The recursive scripts that propagate owner, set-group-id bit and ACL below a toplevel directory (apply-sh.go:149-226 and similar), and the option that runs them
- Owner and mode bits of the directories in share trees; the file contents of the filesystem
- Process spawning, bash templates, `find` and `xargs` pipes; only their effect on the modelled state is kept
- The regular expressions of naming policy, imports and filters: they are arbitrary predicates on path and rule, and the service filter is an arbitrary predicate on service and org unit
- HCL decoding, YAML output, command line, logging, gRPC server and client, authorization
- Kernel permission evaluation beyond named group entries, masks and default inheritance
- The umask: every script sets user, group and other entries, so the modes that mkdir gives do not matter
- Sorting structs by path is modelled as sorting the paths and looking the rest up
- Symbolic links in the middle of `find -maxdepth 2`: it does not follow them, and neither does the model; a root directory that cannot be read is not modelled
