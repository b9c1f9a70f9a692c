// Saving the active set, submitting a session, and the two marks that follow (apexd.cpp).
module Submit {
  import opened Names
  import opened Lifecycle
  import opened DeviceModel
  import opened Sessions

  // The regular files that FindApexFilesByName takes.
  function ApexFiles(dir: Dir): Dir {
    map n | n in dir && EndsWith(n, APEX_SUFFIX) :: dir[n]
  }

  lemma CanonicalFilesAreApexFiles(dir: Dir)
    requires Canonical(dir)
    ensures ApexFiles(dir) == dir
  {
    forall n | n in dir
      ensures EndsWith(n, APEX_SUFFIX)
    {
      var m := dir[n].manifest.value;
      assert n == PackageId(m) + APEX_SUFFIX;
    }
  }

  method FindApexFilesByName(dev: Device, p: Place) returns (ok: bool, names: seq<string>)
    modifies dev`faults
    ensures old(dev.Valid()) ==> dev.Valid()
    ensures dev.faults >= old(dev.faults)
    ensures ok ==> p in dev.disk.dirs && Lists(names, ApexFiles(dev.disk.dirs[p])) && dev.faults == old(dev.faults)
    ensures !ok ==> p !in dev.disk.dirs || dev.faults > old(dev.faults)
  {
    var all;
    names := [];
    ok, all := dev.ReadDir(p);
    if !ok {
      return;
    }
    var i := 0;
    while i < |all|
      invariant 0 <= i <= |all|
      invariant forall n :: n in names <==> n in all[..i] && EndsWith(n, APEX_SUFFIX)
      invariant forall j, k | 0 <= j < k < |names| :: names[j] != names[k]
    {
      assert all[i] !in all[..i];
      assert all[..i + 1] == all[..i] + [all[i]];
      if EndsWith(all[i], APEX_SUFFIX) {
        names := names + [all[i]];
      }
      i := i + 1;
    }
    assert all[..i] == all;
  }

  // ApexFile::Open: fails on a file that is no APEX.
  method OpenApex(dev: Device, i: Inode) returns (m: Option<Manifest>)
    modifies dev`faults
    ensures old(dev.Valid()) ==> dev.Valid()
    ensures m.Some? ==> m == i.manifest && dev.faults == old(dev.faults)
    ensures m.None? ==> i.manifest.None? || dev.faults > old(dev.faults)
    ensures dev.faults >= old(dev.faults)
  {
    var ok := dev.Probe();
    m := if ok then i.manifest else None;
  }

  method DeleteBackup(dev: Device) returns (ok: bool, ghost names: seq<string>)
    requires dev.Valid() && forall id | Readable(dev.disk, id) :: InState(dev.disk, id, ACTIVATED)
    modifies dev
    ensures dev.Valid() && dev.start == old(dev.start) && dev.faults >= old(dev.faults)
    ensures dev.lost >= old(dev.lost) && dev.stuck >= old(dev.stuck)
    ensures dev.faults - dev.lost - dev.stuck >= old(dev.faults - dev.lost - dev.stuck)
    ensures dev.log == old(dev.log) + Unlinks(Backup, names) && dev.world == Replay(old(dev.world), Unlinks(Backup, names))
    ensures Backup !in old(dev.disk).dirs ==> names == []
    ensures ok ==> dev.faults == old(dev.faults) && Lists(names, Contents(old(dev.disk), Backup))
    ensures !ok ==> dev.faults > old(dev.faults)
  {
    names := [];
    assert Unlinks(Backup, []) == [];
    var exists_;
    ok, exists_ := dev.PathExists(Backup);
    if !ok || !exists_ {
      return;
    }
    hide Inv, Follows;
    ok, names := DeleteDirContent(dev, Backup);
  }

  // The world with another set of files in the backup directory.
  ghost function WithBackup(w: World, files: Dir): World {
    w.(disk := w.disk.(dirs := w.disk.dirs[Backup := files]))
  }

  ghost predicate OnlyBackupDiffers(w: World, w': World) {
    w' == w || w' == WithBackup(w, Contents(w'.disk, Backup))
  }

  lemma WithBackupOnly(w: World, files: Dir)
    ensures OnlyBackupDiffers(w, WithBackup(w, files)) && OnlyBackupDiffers(w, w)
    ensures var d := WithBackup(w, files).disk;
      Backup in d.dirs && Contents(d, Active) == Contents(w.disk, Active) && (Active in d.dirs <==> Active in w.disk.dirs)
    ensures forall more :: WithBackup(WithBackup(w, files), more) == WithBackup(w, more)
    ensures Backup !in w.disk.dirs ==> Apply(w, MakeDir(Backup)) == WithBackup(w, map[])
  {
    forall more
      ensures WithBackup(WithBackup(w, files), more) == WithBackup(w, more)
    {
      assert w.disk.dirs[Backup := files][Backup := more] == w.disk.dirs[Backup := more];
    }
  }

  lemma BackupEmptied(w: World, names: seq<string>)
    requires NoReadable(w.disk) && Backup in w.disk.dirs
    ensures Replay(w, Unlinks(Backup, names)) == WithBackup(w, w.disk.dirs[Backup] - ToSet(names))
    ensures Lists(names, w.disk.dirs[Backup]) ==> w.disk.dirs[Backup] - ToSet(names) == map[]
  {
    UnlinksReplay(w, Backup, names);
  }

  // One turn of the loop below.
  method LinkActiveFile(dev: Device, names: seq<string>, i: nat, f: Inode, ghost w: World, ghost active: Dir) returns (ok: bool)
    requires dev.Valid() && NoReadable(w.disk) && Active in w.disk.dirs && w.disk.dirs[Active] == active && Canonical(active)
    requires Lists(names, active) && i < |names| && names[i] in active && active[names[i]] == f
    requires dev.world == WithBackup(w, Linked(active, names[..i]))
    modifies dev
    ensures dev.Valid() && dev.start == old(dev.start)
    ensures dev.lost >= old(dev.lost) && dev.stuck >= old(dev.stuck)
    ensures dev.faults - dev.lost - dev.stuck >= old(dev.faults - dev.lost - dev.stuck)
    ensures ok ==> dev.world == WithBackup(w, Linked(active, names[..i + 1])) && dev.faults == old(dev.faults)
    ensures !ok ==> dev.world == old(dev.world) && dev.faults > old(dev.faults)
  {
    LinkedNext(w, names, i);
    hide *;
    var m := OpenApex(dev, f);
    if m.None? {
      return false;
    }
    ok := dev.Do(Link(Backup, ApexFileName(m.value), f));
  }

  // BackupActivePackages, once the old backup is gone: link every active file.
  method LinkActiveFiles(dev: Device, names: seq<string>) returns (ok: bool)
    requires dev.Valid() && NoReadable(dev.disk) && Active in dev.disk.dirs
    requires Backup in dev.disk.dirs && dev.disk.dirs[Backup] == map[]
    requires Lists(names, dev.disk.dirs[Active])
    modifies dev
    ensures dev.Valid() && dev.start == old(dev.start) && dev.faults >= old(dev.faults)
    ensures dev.lost >= old(dev.lost) && dev.stuck >= old(dev.stuck)
    ensures dev.faults - dev.lost - dev.stuck >= old(dev.faults - dev.lost - dev.stuck)
    ensures OnlyBackupDiffers(old(dev.world), dev.world)
    ensures ok ==> dev.world == WithBackup(old(dev.world), dev.disk.dirs[Active]) && dev.faults == old(dev.faults)
    ensures !ok ==> dev.faults > old(dev.faults)
  {
    ghost var w := dev.world;
    var active := dev.disk.dirs[Active];
    NothingLinked(w, names);
    assert Canonical(active) by {
      dev.Facts();
    }
    BackupStates(w);
    dev.Facts();
    hide *;
    var i := 0;
    while i < |names|
      invariant 0 <= i <= |names|
      invariant dev.Valid() && dev.start == old(dev.start) && dev.faults == old(dev.faults)
      invariant dev.lost >= old(dev.lost) && dev.stuck >= old(dev.stuck)
      invariant dev.faults - dev.lost - dev.stuck >= old(dev.faults - dev.lost - dev.stuck)
      invariant dev.world == WithBackup(w, Linked(active, names[..i]))
    {
      LinkedGrows(active, names, i);
      ok := LinkActiveFile(dev, names, i, active[names[i]], w, active);
      if !ok {
        return;
      }
      i := i + 1;
    }
    assert names[..i] == names;
    dev.Facts();
    ok := true;
  }

  lemma BackupStates(w: World)
    ensures forall files :: OnlyBackupDiffers(w, WithBackup(w, files))
    ensures forall files | Active in w.disk.dirs :: Active in WithBackup(w, files).disk.dirs && WithBackup(w, files).disk.dirs[Active] == w.disk.dirs[Active]
  {
  }

  // The first links of the backup: the same names and inodes as in the active directory.
  function Linked(active: Dir, names: seq<string>): Dir {
    map n | n in active && n in names :: active[n]
  }

  lemma NothingLinked(w: World, names: seq<string>)
    requires Active in w.disk.dirs && Lists(names, w.disk.dirs[Active])
    requires Backup in w.disk.dirs && w.disk.dirs[Backup] == map[]
    ensures WithBackup(w, Linked(w.disk.dirs[Active], names[..0])) == w
    ensures Linked(w.disk.dirs[Active], names) == w.disk.dirs[Active]
  {
    assert w.disk.dirs[Backup := map[]] == w.disk.dirs;
  }

  lemma LinkedNext(w: World, names: seq<string>, i: nat)
    requires NoReadable(w.disk) && Active in w.disk.dirs && Canonical(w.disk.dirs[Active])
    requires Lists(names, w.disk.dirs[Active]) && i < |names|
    ensures var active := w.disk.dirs[Active];
      var now := WithBackup(w, Linked(active, names[..i]));
      && names[i] in active && active[names[i]].manifest.Some?
      && var link := Link(Backup, ApexFileName(active[names[i]].manifest.value), active[names[i]]);
      && Permitted(now, link)
      && Apply(now, link) == WithBackup(w, Linked(active, names[..i + 1]))
      && OnlyBackupDiffers(w, now)
  {
    var active := w.disk.dirs[Active];
    LinkedGrows(active, names, i);
    var before, after := Linked(active, names[..i]), Linked(active, names[..i + 1]);
    assert w.disk.dirs[Backup := before][Backup := after] == w.disk.dirs[Backup := after];
  }

  lemma LinkedGrows(active: Dir, names: seq<string>, i: nat)
    requires Lists(names, active) && i < |names|
    ensures names[i] in active && names[i] !in Linked(active, names[..i])
    ensures Linked(active, names[..i + 1]) == Linked(active, names[..i])[names[i] := active[names[i]]]
  {
    assert names[i] in names && names[i] !in names[..i];
    assert names[..i + 1] == names[..i] + [names[i]];
  }

  method BackupActivePackages(dev: Device) returns (ok: bool)
    requires dev.Valid() && NoReadable(dev.disk)
    modifies dev
    ensures dev.Valid() && dev.start == old(dev.start) && dev.faults >= old(dev.faults)
    ensures dev.lost >= old(dev.lost) && dev.stuck >= old(dev.stuck)
    ensures dev.faults - dev.lost - dev.stuck >= old(dev.faults - dev.lost - dev.stuck)
    ensures OnlyBackupDiffers(old(dev.world), dev.world)
    ensures ok ==> dev.world == WithBackup(old(dev.world), Contents(old(dev.disk), Active)) && dev.faults == old(dev.faults)
    ensures !ok ==> dev.faults > old(dev.faults)
  {
    ghost var w := dev.world;
    NoActiveNoBackup(w);
    assert Canonical(Contents(w.disk, Active));
    CanonicalFilesAreApexFiles(Contents(w.disk, Active));
    WithBackupOnly(w, map[]);
    // A restoring rename may have taken the backup directory away.
    ok := CreateDirIfNeeded(dev, Backup);
    hide Inv, Follows, Replay, Lists, Canonical, ApexFiles, WithBackup, Apply;
    if !ok {
      return;
    }
    var activeExists;
    ok, activeExists := dev.PathExists(Active);
    if !ok || !activeExists {
      return;
    }
    var names;
    ok, names := FindApexFilesByName(dev, Active);
    if !ok {
      return;
    }
    ok := RebuildBackup(dev, names);
  }

  // Empties the backup and links the active files into it; a failure empties it again.
  method RebuildBackup(dev: Device, names: seq<string>) returns (ok: bool)
    requires dev.Valid() && NoReadable(dev.disk) && Active in dev.disk.dirs && Backup in dev.disk.dirs
    requires Lists(names, dev.disk.dirs[Active])
    modifies dev
    ensures dev.Valid() && dev.start == old(dev.start) && dev.faults >= old(dev.faults)
    ensures dev.lost >= old(dev.lost) && dev.stuck >= old(dev.stuck)
    ensures dev.faults - dev.lost - dev.stuck >= old(dev.faults - dev.lost - dev.stuck)
    ensures OnlyBackupDiffers(old(dev.world), dev.world)
    ensures ok ==> dev.world == WithBackup(old(dev.world), dev.disk.dirs[Active]) && dev.faults == old(dev.faults)
    ensures !ok ==> dev.faults > old(dev.faults)
  {
    hide Inv, Follows, Lists, Replay;
    ghost var w := dev.world;
    ghost var removed;
    ok, removed := DeleteBackup(dev);
    BackupEmptied(w, removed);
    if !ok {
      return;
    }
    ok := LinkActiveFiles(dev, names);
    if !ok {
      ghost var linked := dev.world;
      var cleaned;
      cleaned, removed := DeleteDirContent(dev, Backup);
      BackupEmptied(linked, removed);
    }
  }

  // Without an active directory an existing backup is empty already.
  lemma NoActiveNoBackup(w: World)
    requires Inv(w)
    ensures Active !in w.disk.dirs && Backup in w.disk.dirs ==> w == WithBackup(w, map[])
  {
    if Active !in w.disk.dirs && Backup in w.disk.dirs {
      assert w.disk.dirs == w.disk.dirs[Backup := map[]];
    }
  }

  // The session directory holds one APEX file, with this inode.
  ghost predicate SoleApex(d: Disk, id: int, i: Inode) {
    Staging(id) in d.dirs && exists n :: ApexFiles(d.dirs[Staging(id)]) == map[n := i]
  }

  ghost predicate Installable(d: Disk, id: int, i: Inode, trusted: set<Inode>) {
    SoleApex(d, id, i) && i.manifest.Some? && i in trusted
  }

  ghost predicate NothingInstallable(d: Disk, id: int, trusted: set<Inode>) {
    forall i :: !Installable(d, id, i, trusted)
  }

  ghost predicate SomeUninstallable(d: Disk, ids: seq<int>, trusted: set<Inode>) {
    exists k :: 0 <= k < |ids| && NothingInstallable(d, ids[k], trusted)
  }

  lemma SoleFile(dir: Dir, names: seq<string>)
    requires Lists(names, dir)
    ensures |names| == 1 ==> dir == map[names[0] := dir[names[0]]]
    ensures |names| != 1 ==> forall n, i :: dir != map[n := i]
  {
    if |names| == 1 {
      assert forall n | n in dir :: n in names && n == names[0];
    }
    forall n, i | dir == map[n := i]
      ensures |names| == 1
    {
      assert n in names && dir.Keys == {n};
      if |names| >= 2 {
        TwoNames(dir, names);
      }
    }
  }

  lemma TwoNames(dir: Dir, names: seq<string>)
    requires Lists(names, dir) && |names| >= 2
    ensures exists a, b :: a in dir && b in dir && a != b
  {
    assert names[0] in names && names[1] in names && names[0] != names[1];
  }

  // The scan that verifySessionDir and the boot share: a session directory must hold one APEX file.
  method FindSoleApex(dev: Device, id: int) returns (r: Option<Inode>)
    modifies dev`faults
    ensures old(dev.Valid()) ==> dev.Valid()
    ensures dev.faults >= old(dev.faults)
    ensures r.Some? ==> dev.faults == old(dev.faults) && forall i :: SoleApex(dev.disk, id, i) <==> i == r.value
    ensures r.None? ==> dev.faults > old(dev.faults) || forall i :: !SoleApex(dev.disk, id, i)
  {
    var ok, names := FindApexFilesByName(dev, Staging(id));
    if !ok {
      return None;
    }
    var files := ApexFiles(dev.disk.dirs[Staging(id)]);
    SoleFile(files, names);
    if |names| != 1 {
      return None;
    }
    var i := files[names[0]];
    assert SoleApex(dev.disk, id, i);
    assert forall n, j | files == map[n := j] :: j == i by {
      assert names[0] in files;
    }
    r := Some(i);
  }

  // verifySessionDir.  trusted holds the files that VerifyPackageInstall accepts.
  method VerifySessionDir(dev: Device, id: int, trusted: set<Inode>) returns (r: Option<Inode>)
    modifies dev`faults
    ensures old(dev.Valid()) ==> dev.Valid()
    ensures dev.faults >= old(dev.faults)
    ensures r.Some? ==> Installable(dev.disk, id, r.value, trusted) && dev.faults == old(dev.faults)
    ensures r.None? ==> dev.faults > old(dev.faults) || NothingInstallable(dev.disk, id, trusted)
  {
    hide SoleApex;
    r := FindSoleApex(dev, id);
    if r.None? {
      return;
    }
    var m := OpenApex(dev, r.value);
    if m.None? || r.value !in trusted {
      r := None;
    }
  }

  // The directories a session takes its packages from.
  function SourceIds(id: int, children: seq<int>): seq<int> {
    if children != [] then children else [id]
  }

  method VerifySessionDirs(dev: Device, ids: seq<int>, trusted: set<Inode>) returns (ok: bool, files: seq<Inode>)
    modifies dev`faults
    ensures old(dev.Valid()) ==> dev.Valid()
    ensures dev.faults >= old(dev.faults)
    ensures ok ==> |files| == |ids| && dev.faults == old(dev.faults)
                   && forall k | 0 <= k < |ids| :: Installable(dev.disk, ids[k], files[k], trusted)
    ensures !ok ==> dev.faults > old(dev.faults) ||
                    SomeUninstallable(dev.disk, ids, trusted)
  {
    hide Installable, NothingInstallable;
    files := [];
    var k := 0;
    while k < |ids|
      invariant 0 <= k <= |ids| && |files| == k && dev.faults == old(dev.faults)
      invariant forall j | 0 <= j < k :: Installable(dev.disk, ids[j], files[j], trusted)
    {
      var r := VerifySessionDir(dev, ids[k], trusted);
      if r.None? {
        return false, files;
      }
      files := files + [r.value];
      k := k + 1;
    }
    ok := true;
  }

  // CreateSession: make the directory; the state file comes with the first commit.
  method CreateSession(dev: Device, id: int) returns (ok: bool)
    requires dev.Valid() && NoReadable(dev.disk)
    modifies dev
    ensures dev.Valid() && dev.start == old(dev.start) && dev.faults >= old(dev.faults)
    ensures dev.lost >= old(dev.lost) && dev.stuck >= old(dev.stuck)
    ensures dev.faults - dev.lost - dev.stuck >= old(dev.faults - dev.lost - dev.stuck)
    ensures dev.world == old(dev.world).(disk := dev.disk) && dev.disk.dirs == old(dev.disk).dirs && NoReadable(dev.disk)
    ensures ok ==> id in dev.disk.sessions && dev.faults == old(dev.faults)
    ensures !ok ==> dev.faults > old(dev.faults)
  {
    hide Inv, Follows;
    if id !in dev.disk.sessions {
      ok := dev.Do(MakeSessionDir(id));
      if !ok {
        return;
      }
    }
    ok := dev.Probe();
  }

  // What submitting and staging read of other directories is left alone.
  ghost predicate SameSources(d: Disk, e: Disk) {
    forall id :: (Staging(id) in d.dirs <==> Staging(id) in e.dirs)
              && (Staging(id) in d.dirs ==> d.dirs[Staging(id)] == e.dirs[Staging(id)])
  }

  lemma SameSourcesInstallable(d: Disk, e: Disk, trusted: set<Inode>)
    requires SameSources(d, e)
    ensures forall id, i :: Installable(d, id, i, trusted) <==> Installable(e, id, i, trusted)
    ensures forall ids :: SomeUninstallable(e, ids, trusted) ==> SomeUninstallable(d, ids, trusted)
  {
    forall id, i
      ensures SoleApex(d, id, i) <==> SoleApex(e, id, i)
    {
    }
    forall id | NothingInstallable(e, id, trusted)
      ensures NothingInstallable(d, id, trusted)
    {
      assert forall i :: Installable(d, id, i, trusted) ==> Installable(e, id, i, trusted);
    }
  }

  ghost predicate BackedUp(w: World) {
    NoReadable(w.disk) && Backup in w.disk.dirs && w.disk.dirs[Backup] == Contents(w.disk, Active)
  }

  lemma OtherDirsKept(w: World)
    ensures forall files :: var d := WithBackup(w, files).disk;
              SameSources(w.disk, d) && Contents(d, Active) == Contents(w.disk, Active)
              && d.sessions == w.disk.sessions && Contents(d, Backup) == files && Backup in d.dirs
  {
  }

  // The first half of submitStagedSession: forget earlier sessions and save the active set.
  method ClearAndBackUp(dev: Device) returns (ok: bool)
    requires dev.Valid()
    modifies dev
    ensures dev.Valid() && dev.start == old(dev.start) && dev.faults >= old(dev.faults)
    ensures dev.lost >= old(dev.lost) && dev.stuck >= old(dev.stuck)
    ensures dev.faults - dev.lost - dev.stuck >= old(dev.faults - dev.lost - dev.stuck)
    ensures Contents(dev.disk, Active) == Contents(old(dev.disk), Active) && SameSources(old(dev.disk), dev.disk)
    ensures ok ==> BackedUp(dev.world) && dev.faults == old(dev.faults)
    ensures !ok ==> dev.faults > old(dev.faults)
  {
    ok := ClearSessions(dev);
    if ok {
      OtherDirsKept(dev.world);
      hide Inv, Follows, WithBackup;
      ok := BackupActivePackages(dev);
    }
  }

  /** submitStagedSession: on success the session is VERIFIED and both the backup and the
      saved set equal the active set, which no outcome touches. */
  method SubmitStagedSession(dev: Device, id: int, children: seq<int>, trusted: set<Inode>, hookOk: bool)
    returns (ok: bool, files: seq<Inode>)
    requires dev.Valid()
    modifies dev
    ensures dev.Valid() && dev.start == old(dev.start) && dev.faults >= old(dev.faults)
    ensures dev.lost >= old(dev.lost) && dev.stuck >= old(dev.stuck)
    ensures dev.faults - dev.lost - dev.stuck >= old(dev.faults - dev.lost - dev.stuck)
    ensures Contents(dev.disk, Active) == Contents(old(dev.disk), Active)
    ensures ok ==> id in dev.disk.sessions && dev.disk.sessions[id] == Some(Session(id, VERIFIED, children))
    ensures ok ==> Backup in dev.disk.dirs && dev.disk.dirs[Backup] == dev.world.saved == Contents(old(dev.disk), Active)
    ensures ok ==> hookOk && Live(dev.disk, id)
    ensures ok && children == [] ==> |files| == 1 && Installable(old(dev.disk), id, files[0], trusted)
    ensures ok && children != [] ==>
              |files| == |children| && forall k | 0 <= k < |children| :: Installable(old(dev.disk), children[k], files[k], trusted)
    ensures !ok ==> NoReadable(dev.disk) || dev.faults > old(dev.faults)
    ensures !ok ==> dev.faults > old(dev.faults) || !hookOk ||
                    SomeUninstallable(old(dev.disk), if children == [] then [id] else children, trusted)
  {
    hide Inv, Follows, Replay, Installable, SameSources, SomeUninstallable;
    files := [];
    ok := ClearAndBackUp(dev);
    if !ok {
      return;
    }
    SameSourcesInstallable(old(dev.disk), dev.disk, trusted);
    ok, files := VerifySessionDirs(dev, SourceIds(id, children), trusted);
    if !ok || !hookOk {
      return false, files;
    }
    ok := CreateSession(dev, id);
    if !ok {
      return;
    }
    var session := new ApexSession(Session(id, UNKNOWN, []));
    session.proto := session.proto.(children := children);
    ok := session.UpdateStateAndCommit(dev, VERIFIED);
  }

  /** markStagedSessionReady */
  method MarkStagedSessionReady(dev: Device, id: int) returns (ok: bool)
    requires dev.Valid()
    modifies dev
    ensures dev.Valid() && dev.start == old(dev.start) && dev.faults >= old(dev.faults)
    ensures dev.lost >= old(dev.lost) && dev.stuck >= old(dev.stuck)
    ensures dev.faults - dev.lost - dev.stuck >= old(dev.faults - dev.lost - dev.stuck)
    ensures ok ==> InState(dev.disk, id, STAGED)
    ensures dev.faults == old(dev.faults) ==> (ok <==> InState(old(dev.disk), id, VERIFIED) || InState(old(dev.disk), id, STAGED))
    ensures dev.world == old(dev.world) ||
            (InState(old(dev.disk), id, VERIFIED)
             && dev.world == Apply(old(dev.world), Commit(old(dev.disk).sessions[id].value.(state := STAGED))))
    ensures NothingNewLive(old(dev.disk), dev.disk)
  {
    hide Inv, Follows, NothingNewLive;
    NothingChanged(dev.disk);
    var session := GetSession(dev, id);
    if session == null {
      return false;
    }
    if session.proto.state == STAGED {
      return true;
    }
    if session.proto.state == VERIFIED {
      ActionMakesNothingLive(dev.world, Commit(session.proto.(state := STAGED)));
      ok := session.UpdateStateAndCommit(dev, STAGED);
    } else {
      ok := false;
    }
  }

  /** markStagedSessionSuccessful: empties the backup, then commits.  Its log shows the window
      in which a crash leaves an activated session with part of its backup. */
  method MarkStagedSessionSuccessful(dev: Device, id: int) returns (ok: bool, ghost removed: seq<string>)
    requires dev.Valid()
    modifies dev
    ensures dev.Valid() && dev.start == old(dev.start) && dev.faults >= old(dev.faults)
    ensures dev.lost >= old(dev.lost) && dev.stuck >= old(dev.stuck)
    ensures dev.faults - dev.lost - dev.stuck >= old(dev.faults - dev.lost - dev.stuck)
    ensures ok ==> InState(dev.disk, id, SUCCESS) && NoLive(dev.disk)
    ensures dev.faults == old(dev.faults) ==> (ok <==> InState(old(dev.disk), id, ACTIVATED) || InState(old(dev.disk), id, SUCCESS))
    ensures !InState(old(dev.disk), id, ACTIVATED) ==> dev.world == old(dev.world)
    ensures ok && InState(old(dev.disk), id, ACTIVATED) ==>
              Lists(removed, Contents(old(dev.disk), Backup)) &&
              dev.log == old(dev.log) + Unlinks(Backup, removed) + [Commit(old(dev.disk).sessions[id].value.(state := SUCCESS))]
    ensures NothingNewLive(old(dev.disk), dev.disk)
  {
    NothingChanged(dev.disk);
    SuccessIsFinal(dev.world, id);
    removed := [];
    var session := GetSession(dev, id);
    if session == null {
      return false, [];
    }
    if session.proto.state == SUCCESS {
      return true, [];
    } else if session.proto.state == ACTIVATED {
      ghost var w := dev.world;
      MayDiscard(w, id);
      hide Inv, Follows, Lists, Replay, Permitted, Apply, InState, NothingNewLive, NoLive;
      ok, removed := DeleteBackup(dev);
      DiscardKeepsSession(w, id, removed);
      if ok {
        ok := session.UpdateStateAndCommit(dev, SUCCESS);
      }
    } else {
      ok := false;
    }
  }

  lemma MayDiscard(w: World, id: int)
    requires Inv(w) && InState(w.disk, id, ACTIVATED)
    ensures id in w.disk.sessions && w.disk.sessions[id].Some?
    ensures forall i | Readable(w.disk, i) :: InState(w.disk, i, ACTIVATED)
  {
    assert Readable(w.disk, id);
  }

  lemma DiscardKeepsSession(w: World, id: int, removed: seq<string>)
    requires Inv(w) && InState(w.disk, id, ACTIVATED)
    ensures var w' := Replay(w, Unlinks(Backup, removed));
      && w'.disk.sessions == w.disk.sessions
      && var c := Commit(w.disk.sessions[id].value.(state := SUCCESS));
         Permitted(w', c) && InState(Apply(w', c).disk, id, SUCCESS)
         && NothingNewLive(w.disk, w'.disk) && NothingNewLive(w.disk, Apply(w', c).disk) && NoLive(Apply(w', c).disk)
  {
    assert Readable(w.disk, id) && BackupServes(w, ACTIVATED);
    UnlinksReplay(w, Backup, removed);
    var e := Apply(Replay(w, Unlinks(Backup, removed)), Commit(w.disk.sessions[id].value.(state := SUCCESS))).disk;
    assert forall i | Readable(e, i) && i != id :: Readable(w.disk, i);
  }

  lemma SuccessIsFinal(w: World, id: int)
    requires Inv(w)
    ensures InState(w.disk, id, SUCCESS) ==> NoLive(w.disk)
  {
  }
}
