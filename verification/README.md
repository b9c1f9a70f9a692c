# apexd in Dafny

A model of the update engine of apexd, the Android daemon that installs, activates and rolls back
APEX packages, with proofs of what every run of it keeps. `dafny verify dfyconfig.toml` checks it.

The model has two halves.

**The disk.** `Lifecycle.dfy` describes the session files and the directories `active`, `backup` and
the staging directories as a value, changed by atomic actions (one link, one unlink, the rename, one
commit, ...). A crash keeps the effect of a prefix of the actions, so a property of every prefix of a
log is a property of every crash point. `Device.dfy` is the mutable device: every change goes through
`Do`, which may fail, and is recorded in a ghost log. `Sessions.dfy`, `Submit.dfy`, `Staging.dfy`,
`StagePackages.dfy`, `Rollback.dfy` and `Boot.dfy` are the operations of apexd on it.

**The mounts.** `Kernel.dfy` has loop devices, dm-verity devices, stacks of mounts and the directories
under `/apex`; any call may fail. `Mount.dfy` mounts and unmounts with the RAII owners of the original.
`Database.dfy` is the table of mounted packages with its aborting checks. `Coupling.dfy` holds the
invariant that ties the two, and `Activation.dfy`, `Versions.dfy`, `Activate.dfy`, `Scan.dfy`,
`PrePostInstall.dfy`, `Dangling.dfy`, `Populate.dfy` and `Restart.dfy` the operations that keep it.
`Runs.dfy` strings them together.

`Names.dfy` has ids, paths and mount points as strings, `Apexer.dfy` the block arithmetic of the packer.

How to read the contracts: `faults` counts calls that failed although nothing in the modelled state
explains it; among those of the device, `lost` counts commits and existence tests and `stuck` unlinks;
`leaks` counts releases in the kernel that failed; `ran` and `passed` are logs of the processes that were run
and of the checks that packages passed. A clause about `dev.faults == old(dev.faults)` speaks
of an undisturbed call; clauses without it hold however calls fail. A failed `CHECK` or `LOG(FATAL)` is an
out-parameter `aborted`. "Coupled" means: every entry has its mount, its loop device if it names one, mount
points are distinct, at most one entry of a package is latest, and that one is what the active mount point
shows. A bind mount that fails halfway leaves the active mount point of one package in an unknown state:
`loose` is the set of packages for which the last condition is not asked, `unbound` the set that an
operation adds to it, never more than one package for each fault.

Inputs stand for what is outside: which files verification accepts (`trusted`), what hooks report
(`hookOk` on the disk, the result of `Kernel.Run` in the mounts), whether activation succeeds
(`activationOk`, in the disk half), which files can be opened (`files`, a fixed map), directory listings,
lines of the mount table, what /sys tells of block devices (`Sys`) and the configuration flags.

Three things the model shows that the code's comments do not say. A request with two versions of one
package can delete the one that is in place (`Staging.TwoVersionsInOneCall`). Activating a file aborts in
`SetLatest` exactly if another file of that version is mounted but not latest and no higher version is
mounted (`Activate.ActivatePackageImpl`; `Activate.SecondFileAborts` is such an input). It cannot while the
highest version of the package is latest (`Activate.TopNeverAborts`); a bind mount that failed leaves another
state. And after a torn commit the next submission leaves two sessions unless one of the ids happens to fit
(`Lifecycle.TornCommitClears`).

## Model

| member | source | states |
|---|---|---|
| Lifecycle.RunKeepsInv | apexd/apexd.cpp:831-1023 | at every crash point of every run (a crash keeps a prefix of the file operations) there is at most one readable session, and the backup serves its state: it equals the active set of submit time in VERIFIED, STAGED and ACTIVATED, and while rolling back either still does or is gone because the restoring rename has happened; once marking a session successful has begun to empty the backup, what serves is a part of that set |
| Lifecycle.InitialInv | apexd/apexd.cpp:831-846 | a device without sessions and backup, its active files named by package and version, satisfies that invariant |
| Lifecycle.ActionKeepsInv | apexd/apexd.cpp:802-1023 | each single permitted file operation keeps that invariant |
| Lifecycle.CrashSafeRollback | apexd/apexd.cpp:895-986 | after ROLLBACK_IN_PROGRESS is committed in any run from a state that satisfies the invariant, any finite series of crashed rollback attempts followed by a resume that completes ends in ROLLED_BACK with no backup directory and exactly the active set of submit time, or the part of it that was left in the backup if discarding had begun |
| Lifecycle.EmptiedThenRenamed | apexd/apexd.cpp:923-935 | unlinking every active file, in any order, and renaming the backup is a permitted run whose result is the backup in place of the active directory |
| Lifecycle.RollbackKeepsRestoring | apexd/apexd.cpp:895-948 | every prefix of a rollback leaves a disk from which the saved set can still be restored |
| Lifecycle.AtMostOneActiveSession | apexd/apexd_session.cpp:152-165 | no run leaves two live sessions, so the "more than one" failure cannot occur |
| Lifecycle.SessionOnlyAdvances | apexd/apexd_session.cpp:171-210 | until its state file is deleted a session only moves up VERIFIED, STAGED, ACTIVATED, ROLLBACK_IN_PROGRESS, finalized, and a finalized one does not move |
| Lifecycle.NoLiveUntilSubmission | apexd/apexd.cpp:1790-1853 | between two submissions no crash point of a run has a live session that an earlier one had not |
| Lifecycle.InterruptedDiscard | apexd/apexd.cpp:1884-1890 | marking a session successful, cut after k unlinks of the backup and then rolled back, restores the saved set exactly when k is 0 |
| Lifecycle.TornCommitClears | apexd/apexd_session.cpp:197-212 | after a commit of session id cut between truncating and writing, clearing and submitting newId leaves one session exactly if id is 0 or newId is id |
| Lifecycle.TornCommitSurvivesClearing | apexd/apexd_session.cpp:197-212 | otherwise the old session, now 0 / UNKNOWN, and the new one both count as live |
| Lifecycle.UnlistedSessionStays | apexd/apexd_session.cpp:115-139 | if clearing does not see a session because listing the directory failed, the next submission leaves one session exactly if it takes the same id |
| DeviceModel.DeleteDirContent | apexd/apexd_utils.h:151-163 | the log grows by one unlink for each name removed; success without fault means every name of the directory |
| DeviceModel.CreateDirIfNeeded | apexd/apexd_utils.h:125-149 | at most one directory is made, only if it was absent; success means it is there |
| DeviceModel.Device.ReadDir | apexd/apexd_utils.h:102-118 | every name exactly once, in no particular order |
| DeviceModel.Device.PathExists | apexd/apexd_utils.h:165-179 | whether the directory exists, or a counted fault |
| Sessions.GetSessions | apexd/apexd_session.cpp:115-139 | exactly the readable sessions, each once; directories without a readable state file are skipped |
| Sessions.GetSessionsInState | apexd/apexd_session.cpp:141-150 | exactly the sessions in that state, of which there is at most one |
| Sessions.GetActiveSession | apexd/apexd_session.cpp:152-165 | never fails; returns the live session, or none exactly if none is live |
| Sessions.GetSession | apexd/apexd_session.cpp:95-113 | the session stored under that id, or none if it cannot be read |
| Sessions.ApexSession.UpdateStateAndCommit | apexd/apexd_session.cpp:197-210 | the state changes in memory in any case, and on disk by one commit unless the write fails |
| Sessions.DeleteSession | apexd/apexd_session.cpp:66-77 | only that session goes; interrupted, it is unreadable or as it was |
| Sessions.ClearSessions | apexd/apexd.cpp:802-816 | on success no readable session is left; directories of packages are untouched in any case |
| Rollback.RestoreBackup | apexd/apexd.cpp:907-946 | on success the backup has become the active directory by rollback steps only; sessions do not change; it fails only without a backup or by a fault |
| Rollback.DoRollback | apexd/apexd.cpp:895-948 | a failure marks the session ROLLBACK_FAILED, which finalizes it unless the commit is lost |
| Rollback.RollbackStagedSession | apexd/apexd.cpp:950-954 | one commit of ROLLED_BACK and nothing else |
| Rollback.RollbackActivatedSession | apexd/apexd.cpp:956-986 | commits ROLLBACK_IN_PROGRESS, then only rollback steps; without fault the result is the completed rollback, and unless a commit or existence test is lost nothing stays live |
| Rollback.ResumeRollback | apexd/apexd.cpp:1006-1023 | performs rollback steps only; without fault the result is the completed rollback whether or not the rename had happened |
| Rollback.ResumeRollbackIfNeeded | apexd/apexd.cpp:1108-1121 | acts exactly on a session in ROLLBACK_IN_PROGRESS; without fault the world is the one in which it is rolled back |
| Rollback.RollbackSession | apexd/apexd.cpp:988-1004 | nothing for a session already rolling back, one commit for a staged one, the whole rollback for an activated one, failure otherwise |
| Rollback.RollbackActiveSession | apexd/apexd.cpp:1633-1644 | a session already rolling back succeeds and a VERIFIED one fails, both without any change; without fault a STAGED one is one commit of ROLLED_BACK and an ACTIVATED one is rolled back to the end; unless a commit or existence test is lost a success leaves nothing live, but for a rollback already in progress |
| Rollback.RollbackActiveSessionAndReboot | apexd/apexd.cpp:1646-1661 | reboots exactly when that succeeds, so an unfinished rollback reboots without changing anything |
| Rollback.AbortActiveSession | apexd/apexd.cpp:1283-1306 | without fault a VERIFIED or STAGED session is deleted and no package directory changes, an ACTIVATED one is rolled back to the saved set, a rolling one is refused |
| Submit.FindApexFilesByName | apexd/apex_file.cpp:492-505 | exactly the names that end in .apex, each once |
| Submit.DeleteBackup | apexd/apexd.cpp:818-829 | unlinks backup files only, all of them on success; an absent backup is a success |
| Submit.LinkActiveFiles | apexd/apexd.cpp:879-889 | into an empty backup: on success the same names and inodes as in the active directory |
| Submit.BackupActivePackages | apexd/apexd.cpp:831-893 | on success the backup equals the active set; in any case nothing but the backup directory changes |
| Submit.FindSoleApex | apexd/apexd.cpp:1403-1428 | the one APEX file of a session directory; none exactly if there is not exactly one |
| Submit.VerifySessionDir | apexd/apexd.cpp:778-800 | the one file of the directory if it opens and is verified |
| Submit.CreateSession | apexd/apexd_session.cpp:83-94 | the directory exists and no session becomes readable before the first commit |
| Submit.SubmitStagedSession | apexd/apexd.cpp:1790-1853 | the active set never changes; on success the session is VERIFIED, the files are one for each child, in order, each the only APEX file of that child's directory and verified, or the one of the session itself if it has no children, and backup and saved set equal the active set; without fault it fails only for a failed hook or a directory without exactly one verified package |
| Submit.MarkStagedSessionReady | apexd/apexd.cpp:1855-1872 | without fault succeeds exactly on VERIFIED or STAGED, and changes the state of the first only |
| Submit.MarkStagedSessionSuccessful | apexd/apexd.cpp:1874-1895 | without fault succeeds exactly on ACTIVATED or SUCCESS; the log shows the backup emptied before the commit; after a success nothing is live |
| Staging.ToStage | apexd/apexd.cpp:1484-1514 | keeps exactly the files whose name is not in the active directory and whose package is not active in that version, in order |
| Staging.LinkAllContents | apexd/apexd.cpp:1566-1585 | links add one file for each destination and replace none |
| Staging.StageResultContents | apexd/apexd.cpp:1518-1590 | the result of staging holds exactly the staged files and the old files of all other packages; an old file goes only for a staged file whose manifest has the same name |
| Staging.StageResultPackages | apexd/apexd.cpp:321-357 | no package that had a file is left without one, and files stay named by package and version |
| Staging.StagingServesRequest | apexd/apexd.cpp:1484-1590 | a requested file is in place or was active afterwards exactly if it was not already there beside another version that is newly staged |
| Staging.NewVersionIsPlaced | apexd/apexd.cpp:1484-1590 | a requested version that is not the active one and not in the directory is in place afterwards, under its name |
| Staging.DistinctPackagesAllServed | apexd/apexd.cpp:1484-1590 | with distinct packages every request is granted, a newly staged package keeps no other version, and the same call again stages nothing |
| Staging.TwoVersionsInOneCall | apexd/apexd.cpp:1518-1590 | a concrete request of two versions of one package, one already in place, that deletes the one in place |
| StagePackages.FilterFiles | apexd/apexd.cpp:1484-1514 | without fault the files are the ones to stage; a file that does not open is kept |
| StagePackages.LinkFiles | apexd/apexd.cpp:1566-1585 | the links made are those of a prefix of the files; it stops at a fault, or where the files do not link cleanly |
| StagePackages.UndoLinks | apexd/apexd.cpp:1555-1564 | removes only what was linked, and all of it if no unlink fails |
| StagePackages.LinkOrUndo | apexd/apexd.cpp:1553-1587 | all links or, if no unlink fails, the world as before, whatever else fails; if an unlink fails, the old files and part of the new ones; no step leaves a gap |
| StagePackages.RemovePreviouslyActiveApexFiles | apexd/apexd.cpp:321-357 | unlinks only superseded files of the staged packages; all of them on success |
| StagePackages.StagePackages | apexd/apexd.cpp:1518-1590 | no step, crashed or failing, leaves a package that had an active file without one; whichever calls fail, what is left is the files as they were, all the new ones with the prune finished or cut short, or, only after an unlink failed, part of the new ones on top of the old; without fault it succeeds exactly on requests that verify and link cleanly, and then the result is that of the specification |
| StagePackages.LinksReplay | apexd/apexd.cpp:1566-1585 | a sequence of clean links, replayed, makes the linked directory and never leaves a gap |
| StagePackages.PruneLeavesNoGap | apexd/apexd.cpp:321-357 | removing superseded files after the links never leaves a gap |
| Boot.ScanDirs | apexd/apexd.cpp:1403-1432 | succeeds, without fault, exactly if every directory holds one APEX file, and returns these |
| Boot.StageSession | apexd/apexd.cpp:1391-1446 | without fault succeeds exactly if the directories hold one file each, the hooks succeed and the files can be staged; whichever calls fail, the active set is as it was or one of the outcomes of staging exactly those files |
| Boot.ActivateStagedSession | apexd/apexd.cpp:1379-1458 | without fault the session is ACTIVATED exactly then and ACTIVATION_FAILED otherwise, and a failure leaves the active set as it was; whichever calls fail, the active set is as it was or one of the outcomes of staging the files of its directories, the session is no longer STAGED unless its commit is lost, and no other directory changes |
| Boot.ScanStagedSessionsDirAndStage | apexd/apexd.cpp:1374-1459 | without fault no session is STAGED afterwards, and the staged one has been decided as above; if it is ACTIVATED every child's directory held one APEX file, and with distinct packages the file of every child is in the active directory or its version was active; whichever calls fail, the active set is as it was or one of the outcomes of staging the files of that session; without a staged session nothing changes |
| Boot.ActivatedServesAll | apexd/apexd.cpp:1374-1459 | an activated session with distinct packages has each of them in the active directory, or that version was active before |
| Boot.OnStart | apexd/apexd.cpp:1746-1763 | without fault the result is given for each state of the session: VERIFIED or none, nothing; STAGED, decided, and if activated but not working, rolled back with a reboot; ACTIVATED, kept if activation works, else rolled back with a reboot; rolling back, completed without a reboot. However calls fail, a reboot needs a failing activation and a live session, and unless a commit or existence test is lost the session that was live is then ROLLED_BACK, the active set is the backup of before the boot and no backup directory is left; and with the keys collected no session is STAGED or rolling back afterwards unless one is lost |
| Boot.RunUntilSubmission | apexd/apexd.cpp:1646-1775 | over any number of boots, marks and aborts between two submissions at most one such reboot, plus one for each commit or existence test lost, and none of these if a session is live at the end; without a failing call at most one; the disks around each event show what it did unless a call failed in it, and the reboots counted are those that were asked for |
| Names.PackageIdInjective | apexd/apex_manifest.cpp:93-95 | distinct (name, version) pairs have distinct ids, whatever characters the names hold |
| Names.UnsignedOrder | apexd/apexd.cpp:1136-1160 | versions compare as unsigned 64-bit numbers: as integers if neither is negative, and every negative one is above all others |
| Names.PackageMountPointInjective | apexd/apexd.cpp:1098-1100 | ... and distinct mount points |
| Names.TempNamesDisjoint | apexd/apexd.cpp:569-616 | temporary device names and mount points are never the permanent ones of any package |
| Names.MountPointsAreNotActivePoints | apexd/apex_database.cpp:138-140 | a package mount point is no active mount point of a name without @ |
| Names.ParsedPackage | apexd/apex_database.cpp:125-136 | for names without @ and / the name is read back, and the version if it fits an int, otherwise -1 |
| Names.MountPointRoundTrip | apexd/apex_database.cpp:125-136 | parseMountPoint returns name and version of a mount point exactly if the name has no @ or / and the version fits 32 bits |
| Names.MountLineRoundTrip | apexd/apex_database.cpp:117-123 | parseMountInfo returns block device and mount point of a line exactly if neither holds a space |
| Names.ShortMountLine | apexd/apex_database.cpp:117-123 | a line of two fields gives both, a line of one field gives empty names |
| Database.LessTrichotomy | apexd/apex_database.h:48-69 | two records are incomparable exactly if they are equal, so the map loses none |
| Database.LessTransitive | apexd/apex_database.h:48-69 | the order is transitive |
| Database.StringLessAt | apexd/apex_database.h:48-69 | names are ordered by the first character that differs, and a proper prefix comes first |
| Database.MountedApexDatabase.CheckAtMostOneLatest | apexd/apex_database.h:71-81 | passes exactly if no package has two latest entries |
| Database.MountedApexDatabase.CheckUniqueLoopDm | apexd/apex_database.h:83-98 | passes exactly if non-empty loop and dm names are unique over all entries |
| Database.MountedApexDatabase.AddMountedApex | apexd/apex_database.h:100-117 | aborts exactly if the entry is there or one of the checks fails on the new table; otherwise the table gains the entry |
| Database.MountedApexDatabase.RemoveMountedApex | apexd/apex_database.h:119-134 | removes the first entry with the path, in map order, and keeps the table consistent |
| Database.MountedApexDatabase.SetLatest | apexd/apex_database.h:136-157 | aborts exactly if no entry has the path; otherwise the first that has it becomes the only latest one of its package |
| Database.MountedApexDatabase.UnsetLatestForall | apexd/apex_database.h:159-167 | no entry of the package is latest, nothing else changes |
| Mount.LoopbackDeviceUniqueFd.MoveFrom | apexd/apexd_loop.h:43-48 | ownership moves and the source is empty; what the target held before is released |
| Mount.LoopbackDeviceUniqueFd.Destroy | apexd/apexd_loop.cpp:58-65 | the device is released exactly if still owned |
| Mount.DmVerityDevice.Destroy | apexd/apexd.cpp:269-276 | the device is deleted exactly if not released |
| Mount.CreateLoopDevice | apexd/apexd_loop.cpp:127-220 | success attaches one device that was free, and no step but opening the device node has failed; failure, by a fault only, leaves none unless releasing it fails |
| Mount.AcquireLoop | apexd/apexd.cpp:409-422 | the same over three attempts, and it gives up only after three failed ones |
| Mount.CreateVerityDevice | apexd/apexd.cpp:290-319 | success makes the named device over the loop device; failure leaves none, though an older one of that name may be gone |
| Mount.MountNonFlattened | apexd/apexd.cpp:396-502 | success adds a fresh loop device and the mount, and the mount point shows the dm-verity device on top of it, unless verity is not forced and the path begins with /system/apex or /product/apex: then the loop device itself; the verity data of the file, each block of the dm device if asked, and the mounted image have passed their checks; every failing exit takes back what it acquired |
| Mount.MountFlattened | apexd/apexd.cpp:504-523 | a builtin directory is bind-mounted; nothing changes on failure |
| Mount.MountPackageImpl | apexd/apexd.cpp:525-567 | without trouble succeeds exactly if the kind of package fits and the mount point is free; the mount point then shows the package as above and its checks have passed; a failure without failed releases leaves loop devices, dm devices and mounts as they were (a stale dm device of the same name aside); no loop device is released below a dm device |
| Mount.Unmount | apexd/apexd.cpp:578-610 | takes away only what belongs to the record, all of it if nothing fails, the dm device before its loop device, and the loop device exactly if it carries apexd's tag; success means the mount is gone |
| Mount.UnmountUndoesMount | apexd/apexd.cpp:525-610 | unmounting the record that a mount returned gives the state before the mount, apart from the directory and a stale dm device |
| Mount.RunVerifyFnInsideTempMount | apexd/apexd.cpp:617-643 | net zero on loop devices, dm devices and mounts whatever verification says, if no release fails; success means the package was mountable, its dm device was read in full where it has one, and verification succeeded |
| Coupling.CoupledIsUnique | apexd/apex_database.h:83-98 | a table coupled with the kernel passes the uniqueness check |
| Coupling.MountKeepsCoupled | apexd/apexd.cpp:1070-1081 | adding the record of a successful mount keeps table and kernel coupled |
| Coupling.UnmountKeepsCoupled | apexd/apexd.cpp:1061-1063 | so does removing an entry and releasing what belongs to it |
| Coupling.StackChangeDecouples | apexd/apexd.cpp:1175-1187 | after any change of one active mount point only that package can be decoupled, and it is exactly unless its latest entry, if any, is still shown there |
| Coupling.MountKeepsLayered | apexd/apexd.cpp:1070-1081 | after a mount without failed releases no dm device lacks its loop device |
| Coupling.UnmountKeepsLayered | apexd/apexd.cpp:1061-1063 | nor after an unmount |
| Activation.MountPackage | apexd/apexd.cpp:1070-1081 | no CHECK of AddMountedApex fails; table and kernel stay coupled on every outcome; success adds one entry that is not latest, for a package that has passed its checks |
| Activation.UnmountPackage | apexd/apexd.cpp:1025-1064 | a latest entry is refused unless allowed; otherwise, if nothing fails, exactly that entry and its mounts and devices go; success means its mount is gone and, for a latest entry, what its active mount point showed; table and kernel stay coupled on every outcome |
| Activation.BindMount | apexd/apexd_private.cpp:33-90 | on success the target shows the source in place of what was visible before; without trouble its stack is one mount or as high as it was; only the stack on the target changes |
| Activation.BindAndSetLatest | apexd/apexd.cpp:1175-1191 | success makes the mounted version the only latest and the bound one |
| Versions.NewestIsTop | apexd/apexd.cpp:1154-1157 | making the highest version the only latest one keeps what every earlier activation reached |
| Versions.MountedNotLatest | apexd/apexd.cpp:1133-1166 | while the highest version is latest, a mounted version that is not latest is not the highest |
| Activate.CompareVersions | apexd/apexd.cpp:1136-1160 | newest exactly if no mounted version is higher, unsigned; found exactly if that version is mounted |
| Activate.ActivatePackageImpl | apexd/apexd.cpp:1123-1196 | success means the version is mounted, from this file unless it was before, and if no higher version is mounted its entry is the only latest one and its mount is what /apex/<name> shows, otherwise no flag changes; a newly mounted package has passed its checks; a failure makes nothing latest; table and kernel stay coupled, but for the active mount point of the package if the bind mount fails or SetLatest aborts; given the bind mount it aborts exactly if another file of that version is mounted but not latest and no higher version is mounted; without trouble it fails only if the package cannot be mounted and its version is not mounted; a package that is skipped changes nothing |
| Activate.TopNeverAborts | apexd/apexd.cpp:1133-1191 | while the highest version of a package is latest, activating a file of it never aborts |
| Activate.SecondFileAborts | apexd/apexd.cpp:1166-1191 | a concrete coupled table and kernel on which activating the builtin file aborts: the file of the same version in the active directory was mounted but not bound |
| Scan.DeactivatePackage | apexd/apexd.cpp:1208-1217 | if nothing fails exactly that entry, its binding, mount and devices go; success means that its mount and binding are gone |
| Scan.GetActivePackagesMap | apexd/apexd.cpp:1219-1247 | maps exactly the packages with a latest entry to its version |
| Scan.ScanPackagesDirAndActivate | apexd/apexd.cpp:1308-1372 | in any listing order, going on after every failure: each listed file is reported failed, or does not take part under the configuration, or is placed: its version is mounted or a latest entry is at least as high, and it is the latest if none is higher; of the files that can be activated at most one fails for each fault, and none without; entries are only added and come from the listing; if the highest version of each package was latest, it aborts only at a file of a package whose bind mount failed earlier |
| Scan.ActivateAll | apexd/apexd.cpp:1754-1774 | the same over the scans of all directories, under every configuration, a failed scan not stopping the next: the single latest entry of each package found has the highest version found or mounted, but for files that failed and packages not bound; SetLatest aborts only at a file of a package whose bind mount failed |
| Runs.RunOperations | apexd/apexd.cpp:1025-1372 | over any run of activations, deactivations, scans, hooks, temporary mounts and cleanups, whatever fails, table and kernel stay coupled but for at most one package for each fault, and the disk keeps its invariant; the snapshots around each operation show that it did what it is for unless a call failed in it; a run ends early only by an abort of SetLatest, at a file of the operation reached, of a version another file has mounted but not latest and with no higher version mounted; as long as no release fails no loop device is released below a dm device |
| Runs.RunFromEmpty | apexd/apexd.cpp:105-105 | the same from the empty table that apexd starts with, on any kernel, with no package excepted at first |
| Populate.Restore | apexd/apex_database.cpp:281-289 | one record aborts exactly if it equals an earlier one or shares its loop or dm name; else it becomes an entry, the latest one if its version is the highest so far |
| Populate.PopulateFromMounts | apexd/apex_database.cpp:256-293 | in any line order: aborts exactly if two resolved records are equal or share a loop or dm name; else exactly the resolved records become entries; and if no two of a package share path or version the highest positive version of each package is latest |
| Restart.ToldIsResolved | apexd/apex_database.cpp:172-225 | where /sys and the builtin directories agree with the kernel, resolveMountInfo gives the record of the mount |
| Restart.LinesAreListed | apexd/apex_database.cpp:262-279 | lines that name each package mount once, in any order and among any other lines, active bind mounts included, give the record of each package mount once |
| Restart.RecordsAreApart | apexd/apex_database.cpp:172-225 | the records of the mounts of a coupled state claim no name, path or version twice, so the rebuild aborts nowhere |
| Restart.RestartRecovery | apexd/apex_database.cpp:256-293 | the rebuilt table has the same packages, paths, mount points and latest flags exactly if the latest version of each package is between 1 and INT_MAX |
| Restart.RestartCoupled | apexd/apex_database.cpp:256-293 | then it is coupled with the kernel again |
| Restart.RestartDaemon | apexd/apex_database.cpp:256-293 | the two together, from the lines of the mount table: on the kernel that apexd left the rebuild never aborts, gives the same packages, paths, mount points and latest flags exactly if the latest version of each package is between 1 and INT_MAX, and then a table coupled with the kernel |
| PrePostInstall.TearDown | apexd/apexd_prepostinstall.cpp:74-88 | unmounts what was mounted for the hook; if nothing fails table, mounts and loop devices are as before |
| PrePostInstall.StageFnInstall | apexd/apexd_prepostinstall.cpp:56-132 | if a process is run it is one, for the only package with a hook, named first, and at that moment every package is mounted from its file and has its active directory; two hooks run nothing and fail; without trouble it is run if there is one hook and every package is in the table or can be mounted; on every return path table, mounts and loop devices are as at entry and no directory made for an active mount point is left if no release fails; the CHECK fails exactly without a hook |
| PrePostInstall.PrePostinstallPackages | apexd/apexd.cpp:646-670 | that CHECK is never reached without a hook; success means no package has a hook or the hook ran and succeeded; without trouble the one hook of packages that can be mounted is run |
| Dangling.UnmountDanglingMounts | apexd/apexd.cpp:1899-1923 | exactly the latest entries stay, with their flags; from the active directory only files of the others go, all of them if no unlink fails and never one of a latest entry; if nothing fails nothing of the others is left in the kernel |
| Apexer.MaskClearsRemainder | apexer/apexer.py:125-127 | masking with the complement of 2^k - 1 subtracts the remainder, for every integer |
| Apexer.AssertionPasses | apexer/apexer.py:126 | the assertion passes exactly for zero and the powers of two |
| Apexer.RoundUpIsLeastMultiple | apexer/apexer.py:125-127 | on powers of two the result is the least multiple of unit not below size |
| Apexer.GetDirSize | apexer/apexer.py:111-117 | the sum of the sizes of all directories and files, each rounded up to whole blocks, which holds them all and wastes less than one block for each |
| Apexer.ImageMargin | apexer/apexer.py:212-214 | the image has more than 15 MiB and at most 16 to spare |
| Apexer.PartitionHoldsFooter | apexer/apexer.py:310-312 | the partition is block-aligned with one whole block, and less than two, after the end of vbmeta |

## Left out

- Lifecycle.CrashSafeRollback: assumes that writing a state file is atomic; the code truncates and then writes (apexd/apexd_session.cpp:203-207), and `Lifecycle.TornCommitClears` says exactly when the next submission survives a torn write.
- Lifecycle.CrashSafeRollback: contents only; a crash between rename and chmod loses the permissions of the active directory.
- Lifecycle.RunKeepsInv: the window in which marking a session successful has removed part of the backup is a flag of the world (`discarding`); only a part of the saved set is promised in it, and `Lifecycle.InterruptedDiscard` says exactly what a rollback restores then.
- Boot.OnStart: devices without filesystem checkpoints only, so the vold service, rollbackStagedSessionIfAny and the checkpoint branches of DoRollback and submitStagedSession are not modelled.
- Sessions.GetSessions: listing the session directory never fails; in the code a failing listing reads as no sessions, and `Lifecycle.UnlistedSessionStays` says exactly when a submission survives that.
- DeviceModel.CreateDirIfNeeded: neither permissions nor a plain file in place of the directory.
- Scan.ActivateAll: what onStart does on disk after a failed scan is in `Boot.OnStart`, with the result of the scan as an input; the two halves are not run in one state.
- Activate.ActivatePackageImpl: files can be opened as long as apexd runs, and their manifests do not change; names hold no @.
- Mount.MountPackageImpl: a mounted image is never empty and an unmounted directory under /apex always is, so the test for an empty directory is the test for a mount.
- Mount.Unmount: looking up, opening and waiting for a device before its release are one step with the release.
- Restart.RestartDaemon: escapes in the mount table, and mounts under /apex that no entry owns, are excluded; a property file under /sys is read whole, without trimming.
- Names.ParsedPackage: ParseInt as decimal digits with an optional sign; hexadecimal text and leading spaces, which never occur in an id, are not parsed.
- Dangling.UnmountDanglingMounts: an unlink of a path that begins like the active directory but lies outside it touches nothing that is modelled.
- Concurrency: binder calls are serialised.
- unstagePackages: unlinks arbitrary paths given by its caller, which no invariant survives.
- RunFnInstall: what the child process does in its own mount namespace; of ForkAndRun the arguments, the kernel at that moment and the result are modelled.
- AVB, zip, protobuf and JSON parsing, shim checks, key collection, read-ahead, loop pre-allocation, properties, logging and the binder service: environment or plumbing.
- getAllPackages, getFactoryPackages, getActivePackage: queries that would only add easy members.
- The external tools that apexer.py runs, and its inode count.
