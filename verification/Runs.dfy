// Any sequence of operations on mounted packages.
module Runs {
  import opened Names
  import opened DeviceModel
  import opened Database
  import opened KernelModel
  import opened Mount
  import opened Coupling
  import opened Activation
  import opened Versions
  import opened Activate
  import opened Scan
  import opened PrePostInstall
  import opened Dangling

  datatype Operation =
    | ActivatePackage(path: string)
    | Deactivate(path: string)
    | ScanDir(listing: Option<seq<string>>)
    | RunHooks(paths: seq<string>, hooks: seq<bool>)
    | VerifyMounted(path: string, verifyOk: bool)
    | UnmountDangling

  lemma KeepsCoupled(t: Table, a: KState, b: KState, files: Files, loose: set<string>, m: Manifest)
    requires Coupled(t, a, files, loose) && Keeps(a, b, TempDeviceName(m))
    ensures Coupled(t, b, files, loose)
  {
    forall p, d | Has(t, p, d)
      ensures Backed(b, d) && (Latest(t, p, d) && p !in loose ==> Bound(b, p, d))
    {
      assert EntryOk(files, p, d) && Backed(a, d);
      TempNamesDisjoint(m, files[d.fullPath].manifest);
      KeepsEntry(a, b, TempDeviceName(m), p, d);
    }
  }

  lemma KeepsEntry(a: KState, b: KState, device: string, p: string, d: MountedApexData)
    requires Keeps(a, b, device) && Backed(a, d) && (d.deviceName != device || device == "")
    requires device != ""
    ensures Backed(b, d) && (Bound(a, p, d) ==> Bound(b, p, d))
  {
  }

  // HandlePackages: every path must be one that can be opened.
  method OpenAll(paths: seq<string>, files: Files) returns (r: Option<seq<Apex>>)
    requires FilesOk(files)
    ensures r.None? <==> exists i :: 0 <= i < |paths| && paths[i] !in files
    ensures r.Some? ==> |r.value| == |paths| && forall i | 0 <= i < |paths| :: paths[i] in files && r.value[i] == files[paths[i]]
  {
    var apexes: seq<Apex> := [];
    var i := 0;
    while i < |paths|
      invariant 0 <= i <= |paths| && |apexes| == i
      invariant forall j | 0 <= j < i :: paths[j] in files && apexes[j] == files[paths[j]]
    {
      if paths[i] !in files {
        return None;
      }
      apexes := apexes + [files[paths[i]]];
      i := i + 1;
    }
    r := Some(apexes);
  }

  lemma OpenedAre(files: Files, paths: seq<string>, apexes: seq<Apex>)
    requires FilesOk(files) && |apexes| == |paths| && forall i | 0 <= i < |paths| :: paths[i] in files && apexes[i] == files[paths[i]]
    ensures forall i | 0 <= i < |paths| :: InFiles(files, apexes[i])
  {
  }

  // Why apexd aborts during an operation: SetLatest finds no entry for a file to be activated.
  ghost predicate StoppedBy(op: Operation, t: Table, s: KState, files: Files, loose: set<string>) {
    match op
    case ActivatePackage(path) => AbortedAt(t, s, files, loose, path)
    case ScanDir(listing) => AbortedAmong(t, s, files, loose, PathsIn(listing), false)
    case _ => false
  }

  lemma StoppedByActivation(path: string, t: Table, s: KState, files: Files, loose: set<string>)
    requires AbortedAt(t, s, files, loose, path)
    ensures StoppedBy(ActivatePackage(path), t, s, files, loose)
  {
  }

  lemma StoppedByScan(listing: Option<seq<string>>, t: Table, s: KState, files: Files, loose: set<string>, inLoose: bool)
    requires AbortedAmong(t, s, files, loose, PathsIn(listing), inLoose)
    ensures StoppedBy(ScanDir(listing), t, s, files, loose)
  {
  }

  /** What an operation does when no call fails */

  // The table, the kernel, the processes run, and how many calls have failed so far.
  datatype Snapshot = Snapshot(t: Table, s: KState, ran: seq<Launch>, trouble: nat)

  ghost predicate ActivatesFile(a: Snapshot, b: Snapshot, cfg: Config, files: Files, loose: set<string>, path: string) {
    path in files && !Skips(cfg, files[path]) && CanActivateFile(a.t, a.s, cfg, files, files[path]) ==>
      ActivatedIn(a.t, b.t, b.s, files, loose, files[path])
  }

  // The version is mounted already, or can be.
  ghost predicate CanActivateFile(t: Table, s: KState, cfg: Config, files: Files, apex: Apex) {
    || Mountable(s, cfg, apex, PackageMountPoint(apex.manifest))
    || exists e :: e in EntriesOf(t, apex.manifest.name) && VersionOf(files, e) == ApexVersion(apex)
  }

  // With exactly one hook among different packages that can all be mounted, one process is run.
  ghost predicate RunsHook(a: Snapshot, b: Snapshot, cfg: Config, files: Files, paths: seq<string>, hooks: seq<bool>) {
    (forall i | 0 <= i < |paths| :: paths[i] in files) && |hooks| == |paths| && OneHook(hooks) ==>
      var apexes := seq(|paths|, i requires 0 <= i < |paths| && paths[i] in files => files[paths[i]]);
      DifferentManifests(apexes) && Preparable(a.t, a.s, cfg, apexes, 0) ==> |b.ran| == |a.ran| + 1
  }

  lemma RanHook(a: Snapshot, b: Snapshot, cfg: Config, files: Files, paths: seq<string>, hooks: seq<bool>, apexes: Option<seq<Apex>>, ok: bool)
    requires (forall i | 0 <= i < |paths| :: paths[i] in files) ==> apexes.Some?
    requires apexes.Some? ==> |apexes.value| == |paths| && forall i | 0 <= i < |paths| :: paths[i] in files && apexes.value[i] == files[paths[i]]
    requires apexes.Some? && |hooks| == |paths| && OneHook(hooks) && DifferentManifests(apexes.value) && Preparable(a.t, a.s, cfg, apexes.value, 0) ==>
               HookRan(a.ran, b.ran, apexes.value, hooks, ok)
    ensures RunsHook(a, b, cfg, files, paths, hooks)
  {
    if (forall i | 0 <= i < |paths| :: paths[i] in files) && |hooks| == |paths| && OneHook(hooks) {
      assert apexes.value == seq(|paths|, i requires 0 <= i < |paths| && paths[i] in files => files[paths[i]]);
    }
    hide OneHook, Preparable, DifferentManifests;
  }

  ghost predicate WithoutFile(a: Snapshot, b: Snapshot, p: string, d: MountedApexData) {
    b.t == WithoutEntry(a.t, p, d) && b.s == Deactivated(a.s, p, d, Latest(a.t, p, d))
  }

  ghost predicate TakesOut(a: Snapshot, b: Snapshot, files: Files, loose: set<string>, path: string) {
    path in files ==>
      var p := files[path].manifest.name;
      p !in loose ==> forall d | Has(a.t, p, d) && d.fullPath == path :: WithoutFile(a, b, p, d)
  }

  ghost predicate PlacesListed(a: Snapshot, b: Snapshot, cfg: Config, files: Files, paths: seq<string>) {
    forall path | path in paths && Activatable(a.t, a.s, cfg, files, path) && TakesPart(cfg, files[path]) ::
      Placed(EntriesOf(b.t, NameOf(files, path)), files, ApexVersion(files[path]))
  }

  ghost predicate Did(op: Operation, a: Snapshot, b: Snapshot, cfg: Config, files: Files, loose: set<string>) {
    match op
    case ActivatePackage(path) => ActivatesFile(a, b, cfg, files, loose, path)
    case Deactivate(path) => TakesOut(a, b, files, loose, path)
    case ScanDir(listing) => PlacesListed(a, b, cfg, files, PathsIn(listing))
    case RunHooks(paths, hooks) =>
      SameEntries(a.t, b.t) && b.s.mounts == a.s.mounts && b.s.loops == a.s.loops && RunsHook(a, b, cfg, files, paths, hooks)
    case VerifyMounted(path, verifyOk) => b.t == a.t && b.s.mounts == a.s.mounts && b.s.loops == a.s.loops
    case UnmountDangling => OnlyLatestLeft(a.t, b.t)
  }

  lemma ActivatedFile(a: Snapshot, b: Snapshot, cfg: Config, files: Files, loose: set<string>, path: string)
    requires path in files && !Skips(cfg, files[path]) && CanActivateFile(a.t, a.s, cfg, files, files[path]) ==>
               ActivatedIn(a.t, b.t, b.s, files, loose, files[path])
    ensures Did(ActivatePackage(path), a, b, cfg, files, loose)
  {
  }

  lemma TookOut(a: Snapshot, b: Snapshot, cfg: Config, files: Files, loose: set<string>, path: string, ok: bool)
    requires path in files && files[path].manifest.name !in loose ==>
               forall d | Has(a.t, files[path].manifest.name, d) && d.fullPath == path ::
                 UnmountOutcome(a.t, a.s, b.t, b.s, files[path].manifest.name, d, true, ok, true, true)
    ensures Did(Deactivate(path), a, b, cfg, files, loose)
  {
    hide Has, WithoutEntry, Deactivated, Latest;
  }

  lemma PlacedListed(a: Snapshot, b: Snapshot, cfg: Config, files: Files, loose: set<string>, listing: Option<seq<string>>, failed: seq<string>)
    requires PlacedBut(b.t, cfg, files, PathsIn(listing), failed)
    requires forall path | path in failed :: !Activatable(a.t, a.s, cfg, files, path)
    ensures Did(ScanDir(listing), a, b, cfg, files, loose)
  {
    hide Activatable, TakesPart, Placed, PathsIn;
  }

  lemma OthersDid(op: Operation, a: Snapshot, b: Snapshot, cfg: Config, files: Files, loose: set<string>)
    requires op.RunHooks? || op.VerifyMounted? || op.UnmountDangling?
    requires op.UnmountDangling? ==> OnlyLatestLeft(a.t, b.t)
    requires op.VerifyMounted? ==> b.t == a.t
    requires op.RunHooks? ==> SameEntries(a.t, b.t) && RunsHook(a, b, cfg, files, op.paths, op.hooks)
    requires !op.UnmountDangling? ==> b.s.mounts == a.s.mounts && b.s.loops == a.s.loops
    ensures Did(op, a, b, cfg, files, loose)
  {
  }

  lemma SameTable(t: Table)
    ensures SameEntries(t, t)
  {
  }

  lemma DidMoreLoose(op: Operation, a: Snapshot, b: Snapshot, cfg: Config, files: Files, loose: set<string>, loose': set<string>)
    requires Did(op, a, b, cfg, files, loose) && loose <= loose'
    ensures Did(op, a, b, cfg, files, loose')
  {
    hide PlacesListed, SameEntries, OnlyLatestLeft, ActivatedAs, ShownActive, NoneHigher, Mountable, Skips;
  }

  method ActivateOpened(db: MountedApexDatabase, k: Kernel, cfg: Config, path: string, files: Files, ghost loose: set<string>)
    returns (aborted: bool, ghost unbound: set<string>)
    requires FilesOk(files) && Coupled(db.mounted, k.s, files, loose)
    modifies db, k`s, k`faults, k`leaks, k`inverted, k`passed
    ensures k.leaks >= old(k.leaks) && k.faults >= old(k.faults) && |unbound| <= k.faults - old(k.faults)
    ensures if aborted then AbortedAt(db.mounted, k.s, files, loose + unbound, path) && db.mounted == old(db.mounted)
            else Coupled(db.mounted, k.s, files, loose + unbound)
    ensures !aborted && k.faults + k.leaks == old(k.faults + k.leaks) && path in files && !Skips(cfg, files[path])
            && CanActivateFile(old(db.mounted), old(k.s), cfg, files, files[path]) ==>
              ActivatedIn(old(db.mounted), db.mounted, k.s, files, loose, files[path])
    ensures Layered(old(db.mounted), old(k.s)) && k.leaks == old(k.leaks) ==>
              Layered(db.mounted, k.s) && k.inverted == old(k.inverted)
  {
    aborted, unbound := false, {};
    assert loose + {} == loose;
    if path in files {
      assert Ready(db.mounted, k.s, files, loose, files[path]);
      hide Coupled, Layered, Outcome, Touched, Ready, Mountable, NewMountsOwned, AbortsOn, ActivatedIn, Checked, Skips, SameFlags;
      var ok, bindFailed;
      ok, aborted, bindFailed := ActivatePackageImpl(db, k, cfg, files[path], files, loose);
      unbound := if bindFailed then {files[path].manifest.name} else {};
    }
  }

  method VerifyInside(db: MountedApexDatabase, k: Kernel, cfg: Config, path: string, verifyOk: bool, files: Files, ghost loose: set<string>)
    requires FilesOk(files) && Coupled(db.mounted, k.s, files, loose)
    modifies k`s, k`faults, k`leaks, k`inverted, k`passed
    ensures k.leaks >= old(k.leaks) && k.faults >= old(k.faults) && Coupled(db.mounted, k.s, files, loose)
    ensures k.leaks == old(k.leaks) ==> k.s.mounts == old(k.s).mounts && k.s.loops == old(k.s).loops
    ensures Layered(db.mounted, old(k.s)) && k.leaks == old(k.leaks) ==>
              Layered(db.mounted, k.s) && k.inverted == old(k.inverted)
  {
    ghost var t, a := db.mounted, k.s;
    if path in files {
      LayeredIsGrounded(t, a);
      hide Coupled, Layered, Cleared, Keeps, Grounded;
      var ok := RunVerifyFnInsideTempMount(k, cfg, files[path], verifyOk);
      KeepsCoupled(t, a, k.s, files, loose, files[path].manifest);
      if k.leaks == old(k.leaks) && Layered(t, a) {
        ClearedKeepsLayered(t, a, k.s, TempMountPoint(files[path].manifest), TempDeviceName(files[path].manifest));
      }
    }
  }

  // One operation.  unbound holds the packages whose bind mount failed in it.
  method Perform(db: MountedApexDatabase, k: Kernel, dev: Device, cfg: Config, op: Operation, files: Files, ghost loose: set<string>)
    returns (aborted: bool, ghost unbound: set<string>)
    requires FilesOk(files) && Coupled(db.mounted, k.s, files, loose) && dev.Valid()
    modifies db, k, dev
    ensures dev.Valid() && dev.start == old(dev.start)
    ensures k.leaks >= old(k.leaks) && k.faults >= old(k.faults) && |unbound| <= k.faults - old(k.faults)
    ensures if aborted then StoppedBy(op, db.mounted, k.s, files, loose + unbound) else Coupled(db.mounted, k.s, files, loose + unbound)
    ensures !aborted && k.faults + k.leaks == old(k.faults + k.leaks) ==>
              Did(op, Snapshot(old(db.mounted), old(k.s), old(k.ran), old(k.faults + k.leaks)), Snapshot(db.mounted, k.s, k.ran, k.faults + k.leaks), cfg, files, loose)
    ensures Layered(old(db.mounted), old(k.s)) && k.leaks == old(k.leaks) ==>
              Layered(db.mounted, k.s) && k.inverted == old(k.inverted)
  {
    hide *;
    ghost var a := Snapshot(db.mounted, k.s, k.ran, k.faults + k.leaks);
    aborted, unbound := false, {};
    assert loose + {} == loose;
    SameTable(a.t);
    var ok;
    match op {
      case ActivatePackage(path) =>
        aborted, unbound := ActivateOpened(db, k, cfg, path, files, loose);
        if aborted {
          StoppedByActivation(path, db.mounted, k.s, files, loose + unbound);
        } else if k.faults + k.leaks == a.trouble {
          ActivatedFile(a, Snapshot(db.mounted, k.s, k.ran, a.trouble), cfg, files, loose, path);
        }
      case Deactivate(path) =>
        ok := DeactivatePackage(db, k, path, files, loose);
        if k.faults + k.leaks == a.trouble {
          TookOut(a, Snapshot(db.mounted, k.s, k.ran, a.trouble), cfg, files, loose, path, ok);
        }
      case ScanDir(listing) =>
        var failed;
        ok, failed, aborted, unbound := ScanPackagesDirAndActivate(db, k, cfg, listing, files, loose);
        if aborted {
          StoppedByScan(listing, db.mounted, k.s, files, loose + unbound, LatestIsMaxBut(a.t, files, loose));
        } else if k.faults + k.leaks == a.trouble {
          PlacedListed(a, Snapshot(db.mounted, k.s, k.ran, a.trouble), cfg, files, loose, listing, failed);
        }
      case RunHooks(paths, hooks) =>
        var apexes := OpenAll(paths, files);
        ok := false;
        if apexes.Some? && |hooks| == |paths| {
          OpenedAre(files, paths, apexes.value);
          ok, aborted := PrePostinstallPackages(db, k, cfg, apexes.value, hooks, files, loose);
        }
        if k.faults + k.leaks == a.trouble {
          RanHook(a, Snapshot(db.mounted, k.s, k.ran, a.trouble), cfg, files, paths, hooks, apexes, ok);
          OthersDid(op, a, Snapshot(db.mounted, k.s, k.ran, a.trouble), cfg, files, loose);
        }
      case VerifyMounted(path, verifyOk) =>
        VerifyInside(db, k, cfg, path, verifyOk, files, loose);
        if k.faults + k.leaks == a.trouble {
          OthersDid(op, a, Snapshot(db.mounted, k.s, k.ran, a.trouble), cfg, files, loose);
        }
      case UnmountDangling =>
        ghost var gone := UnmountDanglingMounts(db, k, dev, files, loose);
        if k.faults + k.leaks == a.trouble {
          OthersDid(op, a, Snapshot(db.mounted, k.s, k.ran, a.trouble), cfg, files, loose);
        }
    }
  }

  // The snapshots around the first operations of a run: each that met no trouble did what it should.
  ghost predicate Traced(ops: seq<Operation>, steps: seq<Snapshot>, cfg: Config, files: Files, loose: set<string>) {
    && 0 < |steps| <= |ops| + 1
    && forall i | 0 <= i < |steps| - 1 && steps[i + 1].trouble == steps[i].trouble :: Did(ops[i], steps[i], steps[i + 1], cfg, files, loose)
  }

  lemma NothingTraced(ops: seq<Operation>, steps: seq<Snapshot>, cfg: Config, files: Files, loose: set<string>)
    requires |steps| == 1
    ensures Traced(ops, steps, cfg, files, loose)
  {
  }

  lemma TracedMoreLoose(ops: seq<Operation>, steps: seq<Snapshot>, cfg: Config, files: Files, loose: set<string>, loose': set<string>)
    requires Traced(ops, steps, cfg, files, loose) && loose <= loose'
    ensures Traced(ops, steps, cfg, files, loose')
  {
    forall i | 0 <= i < |steps| - 1 && steps[i + 1].trouble == steps[i].trouble
      ensures Did(ops[i], steps[i], steps[i + 1], cfg, files, loose')
    {
      DidMoreLoose(ops[i], steps[i], steps[i + 1], cfg, files, loose, loose');
    }
  }

  lemma TracedNext(ops: seq<Operation>, steps: seq<Snapshot>, b: Snapshot, cfg: Config, files: Files, loose: set<string>, loose': set<string>)
    requires Traced(ops, steps, cfg, files, loose) && |steps| <= |ops| && loose <= loose'
    requires b.trouble == steps[|steps| - 1].trouble ==> Did(ops[|steps| - 1], steps[|steps| - 1], b, cfg, files, loose)
    ensures Traced(ops, steps + [b], cfg, files, loose')
  {
    var all := steps + [b];
    forall i | 0 <= i < |all| - 1 && all[i + 1].trouble == all[i].trouble
      ensures Did(ops[i], all[i], all[i + 1], cfg, files, loose')
    {
      assert i < |steps| - 1 ==> all[i + 1] == steps[i + 1];
      DidMoreLoose(ops[i], all[i], all[i + 1], cfg, files, loose, loose');
    }
  }

  /** Theorem: over any run, whatever fails, table and kernel stay coupled, but for the active mount points of
      packages whose bind mount failed, at most one for each fault.  A run ends before its last operation only if
      SetLatest aborts, at a file of a version that another file has mounted, where no higher version is mounted;
      no CHECK of AddMountedApex can fail.  As long as no release fails, no loop device is ever released
      below a dm device.  Every operation during which no call fails does what it is for. */
  method RunOperations(db: MountedApexDatabase, k: Kernel, dev: Device, cfg: Config, ops: seq<Operation>, files: Files, ghost loose: set<string>)
    returns (done: nat, ghost unbound: set<string>, ghost steps: seq<Snapshot>)
    requires FilesOk(files) && Coupled(db.mounted, k.s, files, loose) && dev.Valid()
    modifies db, k, dev
    ensures |steps| == done + 1 && steps[0] == Snapshot(old(db.mounted), old(k.s), old(k.ran), old(k.faults + k.leaks))
    ensures done == |ops| ==> steps[done] == Snapshot(db.mounted, k.s, k.ran, k.faults + k.leaks)
    ensures Traced(ops, steps, cfg, files, loose + unbound)
    ensures dev.Valid() && dev.start == old(dev.start)
    ensures done <= |ops| && k.leaks >= old(k.leaks) && k.faults >= old(k.faults) && |unbound| <= k.faults - old(k.faults)
    ensures done == |ops| ==> Coupled(db.mounted, k.s, files, loose + unbound)
    ensures done < |ops| ==> StoppedBy(ops[done], db.mounted, k.s, files, loose + unbound)
    ensures Layered(old(db.mounted), old(k.s)) && k.leaks == old(k.leaks) ==>
              Layered(db.mounted, k.s) && k.inverted == old(k.inverted)
  {
    ghost var t, a := db.mounted, k.s;
    assert loose + {} == loose;
    done, unbound := 0, {};
    steps := [Snapshot(t, a, k.ran, k.faults + k.leaks)];
    hide *;
    NothingTraced(ops, steps, cfg, files, loose);
    while done < |ops|
      invariant |steps| == done + 1 && steps[0] == Snapshot(t, a, old(k.ran), old(k.faults + k.leaks))
      invariant steps[done] == Snapshot(db.mounted, k.s, k.ran, k.faults + k.leaks)
      invariant Traced(ops, steps, cfg, files, loose + unbound)
      invariant done <= |ops| && k.leaks >= old(k.leaks) && k.faults >= old(k.faults)
      invariant dev.Valid() && dev.start == old(dev.start)
      invariant |unbound| <= k.faults - old(k.faults)
      invariant Coupled(db.mounted, k.s, files, loose + unbound)
      invariant Layered(t, a) && k.leaks == old(k.leaks) ==> Layered(db.mounted, k.s) && k.inverted == old(k.inverted)
    {
      var aborted;
      ghost var also;
      ghost var before := loose + unbound;
      aborted, also := Perform(db, k, dev, cfg, ops[done], files, before);
      unbound := Union(loose, unbound, also);
      if aborted {
        TracedMoreLoose(ops, steps, cfg, files, before, loose + unbound);
        return;
      }
      ghost var now := Snapshot(db.mounted, k.s, k.ran, k.faults + k.leaks);
      TracedNext(ops, steps, now, cfg, files, before, loose + unbound);
      steps := steps + [now];
      done := done + 1;
    }
  }

  lemma EmptyIsCoupled(s: KState, files: Files, loose: set<string>)
    ensures Coupled(map[], s, files, loose) && (Grounded(s) ==> Layered(map[], s)) && LatestIsMax(map[], files)
  {
  }

  /** ... in particular from the empty table that apexd starts with, on any kernel. */
  method RunFromEmpty(k: Kernel, dev: Device, cfg: Config, ops: seq<Operation>, files: Files)
    returns (db: MountedApexDatabase, done: nat, ghost unbound: set<string>, ghost steps: seq<Snapshot>)
    requires FilesOk(files) && dev.Valid()
    modifies k, dev
    ensures |steps| == done + 1 && steps[0] == Snapshot(map[], old(k.s), old(k.ran), old(k.faults + k.leaks)) && Traced(ops, steps, cfg, files, unbound)
    ensures done == |ops| ==> steps[done] == Snapshot(db.mounted, k.s, k.ran, k.faults + k.leaks)
    ensures dev.Valid() && dev.start == old(dev.start)
    ensures done <= |ops| && k.leaks >= old(k.leaks) && k.faults >= old(k.faults) && |unbound| <= k.faults - old(k.faults)
    ensures if done == |ops| then Coupled(db.mounted, k.s, files, unbound) else StoppedBy(ops[done], db.mounted, k.s, files, unbound)
    ensures Grounded(old(k.s)) && k.leaks == old(k.leaks) ==> Layered(db.mounted, k.s) && k.inverted == old(k.inverted)
  {
    hide *;
    db := new MountedApexDatabase();
    EmptyIsCoupled(k.s, files, {});
    done, unbound, steps := RunOperations(db, k, dev, cfg, ops, files, {});
    assert {} + unbound == unbound;
  }
}
