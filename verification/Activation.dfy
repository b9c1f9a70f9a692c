// Activating and deactivating packages (apexd.cpp, apexd_private.cpp).
module Activation {
  import opened Names
  import opened Database
  import opened KernelModel
  import opened Mount
  import opened Coupling

  /** MountPackage: no CHECK of AddMountedApex can fail. */
  method MountPackage(db: MountedApexDatabase, k: Kernel, cfg: Config, apex: Apex, ghost files: Files, ghost loose: set<string>)
    returns (ok: bool, aborted: bool, ghost d: MountedApexData)
    requires Coupled(db.mounted, k.s, files, loose) && apex.path in files && files[apex.path] == apex
    modifies db, k`s, k`faults, k`leaks, k`inverted, k`passed
    ensures Coupled(db.mounted, k.s, files, loose) && k.leaks >= old(k.leaks) && !aborted
    ensures !ok ==> db.mounted == old(db.mounted)
    ensures ok ==> Added(old(db.mounted), db.mounted, apex, d)
                   && ShowsPackage(k.s, cfg, apex, PackageMountPoint(apex.manifest), PackageId(apex.manifest), d.loopName)
                   && Checked(old(k.passed), k.passed, cfg, apex, PackageMountPoint(apex.manifest), PackageId(apex.manifest), false)
    ensures k.faults >= old(k.faults)
    ensures !ok ==> !Mountable(old(k.s), cfg, apex, PackageMountPoint(apex.manifest)) || k.faults + k.leaks > old(k.faults + k.leaks)
    ensures ok && k.leaks == old(k.leaks) ==>
              AddedFields(old(k.s), k.s, cfg, apex, PackageId(apex.manifest), d) && FreshLoop(old(k.s), apex, d)
    ensures !ok && k.leaks == old(k.leaks) ==>
              Cleared(old(k.s), k.s, PackageMountPoint(apex.manifest), PackageId(apex.manifest))
    ensures KeepsPoints(old(k.s), k.s) && NoNewPoints(old(k.s), k.s, [])
    ensures Layered(old(db.mounted), old(k.s)) && k.leaks == old(k.leaks) ==>
              Layered(db.mounted, k.s) && k.inverted == old(k.inverted)
  {
    hide *;
    ghost var t, a := db.mounted, k.s;
    var mountPoint, device := PackageMountPoint(apex.manifest), PackageId(apex.manifest);
    LayeredIsGrounded(t, a);
    aborted := false;
    d := MountedApexData("", "", "", "");
    var r := MountPackageImpl(k, cfg, apex, mountPoint, device, false);
    ExtendsKeepsPoints(a, k.s, apex.manifest);
    if r.None? {
      FailedMountKeepsCoupled(t, a, k.s, files, loose, apex.manifest);
      if k.leaks == old(k.leaks) && Layered(t, a) {
        ClearedKeepsLayered(t, a, k.s, mountPoint, device);
      }
      return false, false, d;
    }
    d := r.value;
    MountKeepsCoupled(t, a, k.s, files, loose, cfg, apex, d);
    CoupledHolds(WithEntry(t, apex.manifest.name, d, false), k.s, files, loose);
    AddedEntry(t, a, k.s, cfg, apex, d);
    if k.leaks == old(k.leaks) {
      MountAddsFields(a, k.s, cfg, apex, mountPoint, device, d);
      if Layered(t, a) {
        MountKeepsLayered(t, a, k.s, files, loose, cfg, apex, d);
      }
    }
    ok := db.AddMountedApex(apex.manifest.name, false, r.value);
    aborted := !ok;
  }

  lemma LayeredIsGrounded(t: Table, s: KState)
    ensures Layered(t, s) ==> Grounded(s)
  {
  }

  predicate HasPoint(s: KState, point: string) {
    point in s.dirs || point in s.plain
  }

  // The directories of active mount points are all still there.
  ghost predicate KeepsPoints(a: KState, b: KState) {
    forall point | '@' !in point && HasPoint(a, point) :: HasPoint(b, point)
  }

  // No directory that may be an active mount point is new but these.
  ghost predicate NoNewPoints(a: KState, b: KState, made: seq<string>) {
    forall point | '@' !in point && point in b.dirs :: point in a.dirs || point in made
  }

  lemma ExtendsKeepsPoints(a: KState, b: KState, m: Manifest)
    requires Extends(a, b, PackageMountPoint(m), PackageId(m))
    ensures KeepsPoints(a, b) && NoNewPoints(a, b, [])
  {
    var mountPoint := PackageMountPoint(m);
    assert mountPoint[|APEX_ROOT| + 1 + |m.name|] == '@';
    forall point | '@' !in point && HasPoint(a, point)
      ensures HasPoint(b, point)
    {
      assert point in a.dirs ==> point in a.dirs - {mountPoint} && point in b.dirs - {mountPoint};
    }
    forall point | '@' !in point && point in b.dirs
      ensures point in a.dirs
    {
      assert point in b.dirs - {mountPoint} && point in a.dirs - {mountPoint};
    }
  }

  predicate FreshLoop(s: KState, apex: Apex, d: MountedApexData) {
    if apex.flattened then d.loopName == "" else d.loopName != "" && d.loopName !in s.loops
  }

  ghost predicate Added(t: Table, t': Table, apex: Apex, d: MountedApexData) {
    && !Has(t, apex.manifest.name, d) && t' == WithEntry(t, apex.manifest.name, d, false)
    && d.fullPath == apex.path && d.mountPoint == PackageMountPoint(apex.manifest)
  }

  lemma AddedEntry(t: Table, a: KState, b: KState, cfg: Config, apex: Apex, d: MountedApexData)
    requires !Has(t, apex.manifest.name, d)
    requires MountedRight(a, b, cfg, apex, PackageMountPoint(apex.manifest), PackageId(apex.manifest), d)
    ensures Added(t, WithEntry(t, apex.manifest.name, d, false), apex, d) && FreshLoop(a, apex, d)
  {
  }

  lemma CoupledHolds(t: Table, s: KState, files: Files, loose: set<string>)
    requires Coupled(t, s, files, loose)
    ensures EachAtMostOneLatest(t) && UniqueLoopDm(t)
  {
    CoupledIsUnique(t, s, files, loose);
  }

  // The lookup of UnmountPackage and IsMounted: the last entry with that path.
  method FindEntry(db: MountedApexDatabase, p: string, path: string) returns (r: Option<MountedApexData>, latest: bool)
    ensures r.None? ==> forall d | Has(db.mounted, p, d) :: d.fullPath != path
    ensures r.Some? ==> Has(db.mounted, p, r.value) && r.value.fullPath == path && latest == db.mounted[p][r.value]
  {
    r, latest := None, false;
    var m := EntriesOf(db.mounted, p);
    var left := m.Keys;
    while left != {}
      invariant left <= m.Keys
      invariant r.None? ==> forall d | d in m && d !in left :: d.fullPath != path
      invariant r.Some? ==> r.value in m && r.value.fullPath == path && latest == m[r.value]
      decreases left
    {
      var d :| d in left;
      if d.fullPath == path {
        r, latest := Some(d), m[d];
      }
      left := left - {d};
    }
  }

  // The kernel after UnmountPackage.
  function Deactivated(s: KState, p: string, d: MountedApexData, latest: bool): KState {
    Unmounted(if latest then Dismounted(s, ActiveMountPoint(p)) else s, d)
  }

  lemma DismountedOnlyStack(s: KState, target: string)
    ensures OnlyStack(s, UnmountTop(s, target), target)
    ensures OnlyStack(s, Dismounted(s, target), target)
    ensures OnlyStack(s, WithoutDir(UnmountTop(s, target), target), target)
  {
  }

  lemma BoundIsMounted(t: Table, s: KState, files: Files, loose: set<string>, p: string, d: MountedApexData)
    requires Coupled(t, s, files, loose) && Latest(t, p, d) && FilesOk(files)
    ensures '@' !in p && (p !in loose ==> ActiveMountPoint(p) in s.mounts)
  {
    assert Has(t, p, d) && (p !in loose ==> Bound(s, p, d));
  }

  // The mount of d is gone, and if it was the latest, what its active mount point showed.
  ghost predicate TakenDown(t: Table, a: KState, b: KState, p: string, d: MountedApexData) {
    && d.mountPoint !in b.mounts
    && (Latest(t, p, d) ==> ActiveMountPoint(p) in a.mounts && Stack(b, ActiveMountPoint(p)) == Stack(UnmountTop(a, ActiveMountPoint(p)), ActiveMountPoint(p)))
  }

  // Taking a latest entry off its active mount point.
  method UnbindActive(k: Kernel, p: string, ghost t: Table, ghost d: MountedApexData, ghost files: Files, ghost loose: set<string>)
    returns (ok: bool, ghost t0: Table)
    requires FilesOk(files) && Coupled(t, k.s, files, loose) && Latest(t, p, d)
    modifies k`s, k`leaks
    ensures k.leaks >= old(k.leaks)
    ensures !ok ==> k.s == old(k.s) && (k.leaks > old(k.leaks) || p in loose)
    ensures ok ==> Coupled(t0, k.s, files, loose) && Has(t0, p, d) && WithoutEntry(t0, p, d) == WithoutEntry(t, p, d)
    ensures ok && k.leaks == old(k.leaks) ==> k.s == Dismounted(old(k.s), ActiveMountPoint(p))
    ensures ok ==> ActiveMountPoint(p) in old(k.s).mounts && k.s.mounts == UnmountTop(old(k.s), ActiveMountPoint(p)).mounts
    ensures ok && Layered(t, old(k.s)) ==> Layered(t0, k.s)
  {
    ghost var a := k.s;
    t0 := if p in t then t[p := NoneLatest(t[p])] else t;
    var target := ActiveMountPoint(p);
    BoundIsMounted(t, a, files, loose, p, d);
    DismountedOnlyStack(a, target);
    hide Coupled, Layered, Has, Latest, FilesOk, OnlyStack;
    var r := k.Umount(target);
    if r != Done {
      ok := false;
      return;
    }
    var removed := k.Rmdir(target);
    EntryRemovedKeepsCoupled(t, a, k.s, files, loose, p, d);
    OnlyStackKeepsLayered(t, a, k.s, target);
    SameEntriesLayered(t, k.s, p, d);
    ok := true;
  }

  lemma OnlyStackKeepsLayered(t: Table, a: KState, b: KState, target: string)
    requires OnlyStack(a, b, target)
    ensures Layered(t, a) <==> Layered(t, b)
  {
  }

  lemma SameEntriesLayered(t: Table, s: KState, p: string, d: MountedApexData)
    requires Has(t, p, d)
    ensures var t0 := t[p := NoneLatest(t[p])]; Has(t0, p, d) && (Layered(t, s) <==> Layered(t0, s))
  {
    var t0 := t[p := NoneLatest(t[p])];
    assert forall q, e :: Has(t0, q, e) <==> Has(t, q, e);
    SameHasLayered(t, t0, s);
  }

  lemma SameHasLayered(t: Table, t': Table, s: KState)
    requires forall q, e :: Has(t', q, e) <==> Has(t, q, e)
    ensures Layered(t, s) <==> Layered(t', s)
  {
    hide Has, Grounded, OwnsLoop;
  }

  /** UnmountPackage.  The entry goes before the rest is done; what is left is still coupled. */
  method UnmountPackage(db: MountedApexDatabase, k: Kernel, apex: Apex, allowLatest: bool, ghost files: Files, ghost loose: set<string>) returns (ok: bool)
    requires FilesOk(files) && Coupled(db.mounted, k.s, files, loose) && apex.path in files && files[apex.path] == apex
    modifies db, k`s, k`leaks, k`inverted
    ensures Coupled(db.mounted, k.s, files, loose) && k.leaks >= old(k.leaks)
    ensures (forall d | Has(old(db.mounted), apex.manifest.name, d) :: d.fullPath != apex.path) ==>
              !ok && db.mounted == old(db.mounted) && k.s == old(k.s)
    ensures forall d | Has(old(db.mounted), apex.manifest.name, d) && d.fullPath == apex.path ::
              UnmountOutcome(old(db.mounted), old(k.s), db.mounted, k.s, apex.manifest.name, d, allowLatest, ok, k.leaks == old(k.leaks),
                             apex.manifest.name !in loose)
    ensures ok ==> forall d | Has(old(db.mounted), apex.manifest.name, d) && d.fullPath == apex.path ::
              TakenDown(old(db.mounted), old(k.s), k.s, apex.manifest.name, d)
    ensures Layered(old(db.mounted), old(k.s)) && k.leaks == old(k.leaks) ==>
              Layered(db.mounted, k.s) && k.inverted == old(k.inverted)
  {
    ghost var t, a := db.mounted, k.s;
    var p := apex.manifest.name;
    var found, latest := FindEntry(db, p, apex.path);
    if found.None? {
      return false;
    }
    var d := found.value;
    OnlyEntryWithPath(t, a, files, loose, p, d);
    assert latest <==> Latest(t, p, d);
    hide *;
    OutcomeUnchanged(t, a, p, d, allowLatest);
    if !latest || allowLatest {
      OutcomeRemoved(t, a, p, d, allowLatest);
    }
    ghost var t0 := t;
    if latest {
      if !allowLatest {
        return false;
      }
      ok, t0 := UnbindActive(k, p, t, d, files, loose);
      if !ok {
        return;
      }
    }
    ghost var b := k.s;
    ok := RemoveAndUnmount(db, k, files, loose, p, d, t0);
    if ok {
      TakenDownLast(t, a, b, k.s, files, loose, p, d);
    }
  }

  ghost predicate UnmountOutcome(t: Table, a: KState, t': Table, b: KState, p: string, d: MountedApexData,
                                 allowLatest: bool, ok: bool, noLeak: bool, bound: bool) {
    && (Latest(t, p, d) && !allowLatest ==> !ok && t' == t && b == a)
    && (t' == t || t' == WithoutEntry(t, p, d))
    && (ok ==> t' == WithoutEntry(t, p, d))
    && (noLeak && (Latest(t, p, d) ==> allowLatest && bound) ==> ok)
    && (noLeak && ok ==> b == Deactivated(a, p, d, Latest(t, p, d)))
    && (noLeak && !ok ==> t' == t && b == a)
  }

  lemma OutcomeUnchanged(t: Table, a: KState, p: string, d: MountedApexData, allowLatest: bool)
    ensures forall bound :: UnmountOutcome(t, a, t, a, p, d, allowLatest, false, false, bound)
    ensures Latest(t, p, d) && !allowLatest ==> forall bound :: UnmountOutcome(t, a, t, a, p, d, allowLatest, false, true, bound)
    ensures Latest(t, p, d) ==> UnmountOutcome(t, a, t, a, p, d, allowLatest, false, true, false)
  {
  }

  lemma OutcomeRemoved(t: Table, a: KState, p: string, d: MountedApexData, allowLatest: bool)
    requires Latest(t, p, d) ==> allowLatest
    ensures forall b, ok, bound :: UnmountOutcome(t, a, WithoutEntry(t, p, d), b, p, d, allowLatest, ok, false, bound)
    ensures forall b, bound | b == Deactivated(a, p, d, Latest(t, p, d)) ::
              UnmountOutcome(t, a, WithoutEntry(t, p, d), b, p, d, allowLatest, true, true, bound)
  {
  }

  lemma OnlyEntryWithPath(t: Table, s: KState, files: Files, loose: set<string>, p: string, d: MountedApexData)
    requires Coupled(t, s, files, loose) && Has(t, p, d)
    ensures forall e | Has(t, p, e) && e.fullPath == d.fullPath :: e == d
    ensures IsLeast(Matching(EntriesOf(t, p), d.fullPath), d)
  {
    forall e | Has(t, p, e) && e.fullPath == d.fullPath
      ensures e == d
    {
      SamePathSameEntry(t, s, files, loose, p, d, p, e);
    }
  }

  lemma MountedAlone(t: Table, s: KState, files: Files, loose: set<string>, p: string, d: MountedApexData)
    requires Coupled(t, s, files, loose) && Has(t, p, d)
    ensures d.mountPoint !in UnmountTop(s, d.mountPoint).mounts
  {
    assert Backed(s, d);
  }

  // Taking down the mount of d touches no other stack.
  lemma TakenDownLast(t: Table, a: KState, b: KState, c: KState, files: Files, loose: set<string>, p: string, d: MountedApexData)
    requires FilesOk(files) && Coupled(t, a, files, loose) && Has(t, p, d) && Shrinks(b, c, d) && d.mountPoint !in c.mounts
    requires if Latest(t, p, d) then ActiveMountPoint(p) in a.mounts && b.mounts == UnmountTop(a, ActiveMountPoint(p)).mounts else b == a
    ensures TakenDown(t, a, c, p, d)
  {
    MountPointIsNotActive(t, a, files, loose, p, d);
    hide FilesOk, Coupled, Has;
  }

  // The last two statements of UnmountPackage.
  method RemoveAndUnmount(db: MountedApexDatabase, k: Kernel, ghost files: Files, ghost loose: set<string>, p: string, d: MountedApexData, ghost t0: Table)
    returns (ok: bool)
    requires FilesOk(files) && IsLeast(Matching(EntriesOf(db.mounted, p), d.fullPath), d)
    requires Coupled(t0, k.s, files, loose) && Has(t0, p, d) && WithoutEntry(t0, p, d) == WithoutEntry(db.mounted, p, d)
    modifies db, k`s, k`leaks, k`inverted
    ensures k.leaks >= old(k.leaks) && db.mounted == WithoutEntry(old(db.mounted), p, d) && Coupled(db.mounted, k.s, files, loose)
    ensures !ok ==> k.leaks > old(k.leaks)
    ensures k.leaks == old(k.leaks) ==> k.s == Unmounted(old(k.s), d)
    ensures Shrinks(old(k.s), k.s, d) && (ok ==> d.mountPoint !in k.s.mounts)
    ensures Layered(t0, old(k.s)) && k.leaks == old(k.leaks) ==> Layered(db.mounted, k.s) && k.inverted == old(k.inverted)
  {
    ghost var b := k.s;
    MountedAlone(t0, b, files, loose, p, d);
    hide *;
    db.RemoveMountedApex(p, d.fullPath);
    if Layered(t0, b) {
      UnmountKeepsLayered(t0, b, files, loose, p, d);
    }
    ok := Unmount(k, d);
    UnmountKeepsCoupled(t0, b, k.s, files, loose, p, d);
  }

  // What was visible on the target before is gone, unless the target was no directory.
  function Rebound(s: KState, target: string, source: string): KState {
    MountOn(if target in s.dirs then UnmountTop(s, target) else s, target, Shown(s, source))
  }

  lemma ReboundHeight(s: KState, b: KState, target: string, source: string)
    requires b.mounts == Rebound(s, target, source).mounts && (target in s.dirs || target !in s.mounts)
    ensures |Stack(b, target)| == 1 || |Stack(b, target)| == |Stack(s, target)|
  {
  }

  // The first steps of BindMount: the target is an empty directory, unless the unmount fails.
  method ClearTarget(k: Kernel, target: string) returns (ok: bool)
    modifies k`s, k`faults, k`leaks
    ensures k.faults >= old(k.faults) && (k.faults == old(k.faults) ==> ok && target in k.s.dirs)
    ensures k.leaks >= old(k.leaks)
    ensures OnlyStack(old(k.s), k.s, target) && k.s.plain <= old(k.s).plain
    ensures k.s.mounts == old(k.s).mounts || k.s.mounts == UnmountTop(old(k.s), target).mounts
    ensures k.faults + k.leaks == old(k.faults + k.leaks) ==>
              ok && k.s.mounts == (if target in old(k.s).dirs then UnmountTop(old(k.s), target) else old(k.s)).mounts
  {
    ok := true;
    var exists_, isDir := true, true;
    var stated := k.Probe();  // when this fails, a directory is assumed
    if stated {
      exists_ := target in k.s.dirs || target in k.s.plain;
      isDir := target in k.s.dirs;
    }
    if exists_ && !isDir {
      var removed := k.RemoveFile(target);
      exists_ := false;
    }
    if !exists_ {
      ok := k.Mkdir(target);
    } else {
      var r := k.Umount(target);
    }
  }

  /** BindMount: replaces whatever the active mount point shows.  If it fails after unmounting, that is gone. */
  method BindMount(k: Kernel, target: string, source: string) returns (ok: bool)
    requires source != target
    modifies k`s, k`faults, k`leaks
    ensures k.faults >= old(k.faults) && (!ok ==> k.faults > old(k.faults))
    ensures k.leaks >= old(k.leaks)
    ensures OnlyStack(old(k.s), k.s, target) && k.s.plain <= old(k.s).plain
    ensures ok ==> Top(k.s, target) == Some(Shown(old(k.s), source))
    ensures ok && k.faults + k.leaks == old(k.faults + k.leaks) && (target in old(k.s).dirs || target !in old(k.s).mounts) ==>
              |Stack(k.s, target)| == 1 || |Stack(k.s, target)| == |Stack(old(k.s), target)|
    ensures ok && k.faults + k.leaks == old(k.faults + k.leaks) ==> k.s.mounts == Rebound(old(k.s), target, source).mounts
    ensures !ok ==> k.s.mounts == old(k.s).mounts || k.s.mounts == UnmountTop(old(k.s), target).mounts
  {
    ok := ClearTarget(k, target);
    if !ok {
      return;
    }
    ok := k.Mount(Shown(k.s, source), target);
    if ok && k.faults + k.leaks == old(k.faults + k.leaks) && (target in old(k.s).dirs || target !in old(k.s).mounts) {
      ReboundHeight(old(k.s), k.s, target, source);
    }
  }

  lemma ShownIsMounted(t: Table, s: KState, files: Files, loose: set<string>, p: string, d: MountedApexData, b: KState)
    requires FilesOk(files) && Coupled(t, s, files, loose) && Has(t, p, d) && OnlyStack(s, b, ActiveMountPoint(p))
    requires Top(b, ActiveMountPoint(p)) == Some(Shown(s, d.mountPoint))
    ensures '@' !in p && Bound(b, p, d)
  {
    assert Backed(s, d) && EntryOk(files, p, d);
    MountPointsAreNotActivePoints(files[d.fullPath].manifest, p);
  }

  lemma MountPointIsNotActive(t: Table, s: KState, files: Files, loose: set<string>, p: string, d: MountedApexData)
    requires FilesOk(files) && Coupled(t, s, files, loose) && Has(t, p, d)
    ensures d.mountPoint != ActiveMountPoint(p)
  {
    MountPointsAreNotActivePoints(files[d.fullPath].manifest, p);
  }

  lemma PlainPackage(t: Table, s: KState, files: Files, loose: set<string>, p: string, d: MountedApexData)
    requires FilesOk(files) && Coupled(t, s, files, loose) && Has(t, p, d)
    ensures '@' !in p
  {
    assert EntryOk(files, p, d);
  }

  // The last two steps of activatePackageImpl, for a package version mounted as d.
  method BindAndSetLatest(db: MountedApexDatabase, k: Kernel, apex: Apex, ghost d: MountedApexData, ghost files: Files, ghost loose: set<string>)
    returns (ok: bool, aborted: bool)
    requires FilesOk(files) && Coupled(db.mounted, k.s, files, loose)
    requires Has(db.mounted, apex.manifest.name, d) && d.mountPoint == PackageMountPoint(apex.manifest)
    requires apex.path in files && files[apex.path] == apex
    modifies db, k`s, k`faults, k`leaks
    ensures k.leaks >= old(k.leaks) && k.faults >= old(k.faults) && (!ok ==> k.faults > old(k.faults) || aborted)
    ensures (ok ==> d.fullPath == apex.path) && (aborted ==> !ok && d.fullPath != apex.path)
    ensures OnlyStack(old(k.s), k.s, ActiveMountPoint(apex.manifest.name)) && k.s.plain <= old(k.s).plain
    ensures !ok ==> db.mounted == old(db.mounted)
    ensures ok ==> !aborted && apex.manifest.name in old(db.mounted) && Coupled(db.mounted, k.s, files, loose)
                   && db.mounted == SetLatestIn(old(db.mounted), apex.manifest.name, d)
    ensures !ok ==> Coupled(db.mounted, k.s, files, loose + {apex.manifest.name})
    ensures Layered(old(db.mounted), old(k.s)) ==> Layered(db.mounted, k.s)
  {
    ghost var t, a := db.mounted, k.s;
    var p := apex.manifest.name;
    MountPointIsNotActive(t, a, files, loose, p, d);
    PlainPackage(t, a, files, loose, p, d);
    SetLatestThere(t, a, p, d, apex.path);
    aborted := false;
    hide *;
    ok := BindMount(k, ActiveMountPoint(p), PackageMountPoint(apex.manifest));
    OnlyStackKeepsLayered(t, a, k.s, ActiveMountPoint(p));
    StackChangeDecouples(t, a, k.s, files, loose, p);
    if !ok {
      return;
    }
    ShownIsMounted(t, a, files, loose, p, d, k.s);
    LatestSetKeepsCoupled(t, a, k.s, files, loose, p, d);
    MoreLoose(SetLatestIn(t, p, d), k.s, files, loose - {p}, loose);
    PathMeansEntry(t, a, files, loose, apex, d);
    ok := db.SetLatest(p, apex.path);
    aborted := !ok;
    SetLatestThere(t, k.s, p, d, apex.path);
  }

  lemma PathMeansEntry(t: Table, s: KState, files: Files, loose: set<string>, apex: Apex, d: MountedApexData)
    requires Coupled(t, s, files, loose) && apex.path in files && files[apex.path] == apex
    requires Has(t, apex.manifest.name, d) && d.mountPoint == PackageMountPoint(apex.manifest)
    ensures var matching := Matching(EntriesOf(t, apex.manifest.name), apex.path);
      (matching != {} <==> d.fullPath == apex.path) && (d.fullPath == apex.path ==> IsLeast(matching, d))
  {
    var p := apex.manifest.name;
    forall e | e in Matching(EntriesOf(t, p), apex.path)
      ensures e == d
    {
      assert Has(t, p, e) && EntryOk(files, p, e);
    }
    assert d.fullPath == apex.path ==> d in Matching(EntriesOf(t, p), apex.path);
  }

  ghost function SetLatestIn(t: Table, p: string, d: MountedApexData): Table {
    t[p := OnlyLatest(EntriesOf(t, p), d)]
  }

  lemma SetLatestThere(t: Table, s: KState, p: string, d: MountedApexData, path: string)
    requires Has(t, p, d)
    ensures p in t && EntriesOf(t, p) == t[p] && SetLatestIn(t, p, d) == t[p := OnlyLatest(t[p], d)]
    ensures d.fullPath == path ==> Matching(EntriesOf(t, p), path) != {}
    ensures Layered(t, s) <==> Layered(SetLatestIn(t, p, d), s)
  {
    assert d.fullPath == path ==> d in Matching(EntriesOf(t, p), path);
    assert forall q, e :: Has(SetLatestIn(t, p, d), q, e) <==> Has(t, q, e);
    SameHasLayered(t, SetLatestIn(t, p, d), s);
  }
}
