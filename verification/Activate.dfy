// activatePackageImpl, deactivatePackage and the scans that call the first (apexd.cpp).
module Activate {
  import opened Names
  import opened Database
  import opened KernelModel
  import opened Mount
  import opened Coupling
  import opened Activation
  import opened Versions

  predicate IsBootstrapApex(apex: Apex) {
    apex.manifest.name in {"com.android.runtime", "com.android.tzdata"}
  }

  // Packages that activatePackageImpl leaves alone.
  predicate Skips(cfg: Config, apex: Apex): (r: bool)
    ensures cfg.updatable && !cfg.bootstrap ==> !r
    ensures cfg.updatable || cfg.bootstrap ==>
              (r <==> cfg.bootstrap && apex.manifest.name != "com.android.runtime" && apex.manifest.name != "com.android.tzdata")
    ensures !cfg.updatable && !cfg.bootstrap ==>
              (r <==> apex.manifest.name == "com.android.runtime" || apex.manifest.name == "com.android.tzdata")
  {
    if cfg.bootstrap then !IsBootstrapApex(apex) else !cfg.updatable && IsBootstrapApex(apex)
  }

  // The loop of activatePackageImpl over the mounted versions.
  method CompareVersions(m: Entries, files: Files, v: nat)
    returns (newest: bool, foundMounted: bool, foundActive: bool, ghost d: MountedApexData)
    requires forall e | e in m :: e.fullPath in files
    ensures newest <==> forall e | e in m :: VersionOf(files, e) <= v
    ensures foundMounted <==> exists e :: e in m && VersionOf(files, e) == v
    ensures foundMounted ==> d in m && VersionOf(files, d) == v && foundActive == m[d]
    ensures foundActive ==> foundMounted
  {
    newest, foundMounted, foundActive := true, false, false;
    d := MountedApexData("", "", "", "");
    var left := m.Keys;
    while left != {}
      invariant left <= m.Keys
      invariant newest <==> forall e | e in m && e !in left :: VersionOf(files, e) <= v
      invariant foundMounted <==> exists e :: e in m && e !in left && VersionOf(files, e) == v
      invariant foundMounted ==> d in m && VersionOf(files, d) == v && foundActive == m[d]
      invariant foundActive ==> foundMounted
      decreases left
    {
      var e :| e in left;
      if e.fullPath in files {
        if ApexVersion(files[e.fullPath]) == v {
          foundMounted, foundActive, d := true, m[e], e;
        }
        if ApexVersion(files[e.fullPath]) > v {
          newest := false;
        }
      }
      left := left - {e};
    }
  }

  ghost predicate Ready(t: Table, s: KState, files: Files, loose: set<string>, apex: Apex) {
    FilesOk(files) && Coupled(t, s, files, loose) && apex.path in files && files[apex.path] == apex
  }

  lemma ReadyFacts(t: Table, s: KState, files: Files, loose: set<string>, apex: Apex)
    requires Ready(t, s, files, loose, apex)
    ensures FilesOk(files) && Coupled(t, s, files, loose) && apex.path in files && files[apex.path] == apex
    ensures forall e | e in EntriesOf(t, apex.manifest.name) :: e.fullPath in files
    ensures AtMostOneLatest(EntriesOf(t, apex.manifest.name))
  {
    assert forall e | e in EntriesOf(t, apex.manifest.name) :: Has(t, apex.manifest.name, e);
  }

  // Only the entries of one package differ.
  ghost predicate OnlyPackage(t: Table, t': Table, p: string) {
    forall q | q != p :: EntriesOf(t', q) == EntriesOf(t, q)
  }

  // Entries of one package may have been added, for this file only.
  ghost predicate Touched(t: Table, t': Table, apex: Apex) {
    OnlyPackage(t, t', apex.manifest.name)
    && Grows(EntriesOf(t, apex.manifest.name), EntriesOf(t', apex.manifest.name), apex.path)
  }

  // The outcome of activating one package, for everything but a bind mount that fails.
  ghost predicate Outcome(t: Table, t': Table, files: Files, apex: Apex, ok: bool) {
    var p, v := apex.manifest.name, ApexVersion(apex);
    var m, m' := EntriesOf(t, p), EntriesOf(t', p);
    && Touched(t, t', apex) && Progress(m, m', files)
    && (ok && HasTop(m, files) ==> Reaches(m', files, v))
  }

  // A success: the version is mounted as d, by this file unless it was before.  It is the only latest one if no
  // higher version is mounted; else no flag changes.
  ghost predicate ActivatedAs(m: Entries, m': Entries, files: Files, apex: Apex, d: MountedApexData) {
    && m'.Keys == m.Keys + {d} && VersionOf(files, d) == ApexVersion(apex) && (d in m || d.fullPath == apex.path)
    && if NoneHigher(m, files, apex) then forall e | e in m' :: m'[e] <==> e == d else SameFlags(m, m')
  }

  ghost predicate NoneHigher(m: Entries, files: Files, apex: Apex) {
    forall e | e in m :: VersionOf(files, e) <= ApexVersion(apex)
  }

  // No entry has become latest or ceased to be.
  ghost predicate SameFlags(m: Entries, m': Entries) {
    forall e | e in m' :: m'[e] <==> e in m && m[e]
  }

  // ... and then the active mount point shows the mount of d.
  ghost predicate ActivatedIn(t: Table, t': Table, s: KState, files: Files, loose: set<string>, apex: Apex) {
    var p := apex.manifest.name;
    exists d :: ActivatedAs(EntriesOf(t, p), EntriesOf(t', p), files, apex, d)
      && (NoneHigher(EntriesOf(t, p), files, apex) && p !in loose ==> ShownActive(s, p, d))
  }

  ghost predicate ShownActive(s: KState, p: string, d: MountedApexData) {
    d.mountPoint in s.mounts && Top(s, d.mountPoint).Some? && Top(s, "/apex/" + p) == Top(s, d.mountPoint)
  }

  // The latest entry of a coupled table is shown.
  lemma LatestIsShown(t: Table, s: KState, files: Files, loose: set<string>, p: string, d: MountedApexData)
    requires Coupled(t, s, files, loose) && Latest(t, p, d) && p !in loose
    ensures ShownActive(s, p, d)
  {
    assert Has(t, p, d) && Backed(s, d) && Bound(s, p, d);
    assert ActiveMountPoint(p) == "/apex/" + p;
  }

  lemma FoundIsActivated(t: Table, s: KState, files: Files, loose: set<string>, apex: Apex, d: MountedApexData)
    requires Coupled(t, s, files, loose) && Has(t, apex.manifest.name, d) && VersionOf(files, d) == ApexVersion(apex)
    requires t[apex.manifest.name][d] || !NoneHigher(EntriesOf(t, apex.manifest.name), files, apex)
    ensures ActivatedIn(t, t, s, files, loose, apex)
  {
    var p := apex.manifest.name;
    assert AtMostOneLatest(t[p]);
    assert t[p].Keys == t[p].Keys + {d};
    if t[p][d] && p !in loose {
      LatestIsShown(t, s, files, loose, p, d);
    }
    assert ActivatedAs(EntriesOf(t, p), EntriesOf(t, p), files, apex, d);
  }

  lemma SetLatestIsActivated(t: Table, t': Table, s: KState, files: Files, loose: set<string>, apex: Apex, d: MountedApexData)
    requires Coupled(SetLatestIn(t', apex.manifest.name, d), s, files, loose) && VersionOf(files, d) == ApexVersion(apex)
    requires (t' == t && Has(t, apex.manifest.name, d)) || (Added(t, t', apex, d) && apex.path in files && files[apex.path] == apex)
    requires NoneHigher(EntriesOf(t, apex.manifest.name), files, apex)
    ensures ActivatedIn(t, SetLatestIn(t', apex.manifest.name, d), s, files, loose, apex)
  {
    var p, u := apex.manifest.name, SetLatestIn(t', apex.manifest.name, d);
    assert EntriesOf(u, p).Keys == EntriesOf(t', p).Keys == EntriesOf(t, p).Keys + {d};
    if p !in loose {
      LatestIsShown(u, s, files, loose, p, d);
    }
    assert ActivatedAs(EntriesOf(t, p), EntriesOf(u, p), files, apex, d);
  }

  lemma AddedIsActivated(t: Table, t': Table, s: KState, files: Files, loose: set<string>, apex: Apex, d: MountedApexData)
    requires Added(t, t', apex, d) && apex.path in files && files[apex.path] == apex
    ensures SameFlags(EntriesOf(t, apex.manifest.name), EntriesOf(t', apex.manifest.name)) && VersionOf(files, d) == ApexVersion(apex)
    ensures !NoneHigher(EntriesOf(t, apex.manifest.name), files, apex) ==> ActivatedIn(t, t', s, files, loose, apex)
  {
    var p := apex.manifest.name;
    assert EntriesOf(t', p) == EntriesOf(t, p)[d := false];
    assert EntriesOf(t', p).Keys == EntriesOf(t, p).Keys + {d};
    assert !NoneHigher(EntriesOf(t, p), files, apex) ==> ActivatedAs(EntriesOf(t, p), EntriesOf(t', p), files, apex, d);
  }

  lemma UnchangedFlags(t: Table, files: Files, apex: Apex)
    ensures SameFlags(EntriesOf(t, apex.manifest.name), EntriesOf(t, apex.manifest.name))
    ensures NoneHigher(EntriesOf(t, apex.manifest.name), files, apex) <==>
              forall e | e in EntriesOf(t, apex.manifest.name) :: VersionOf(files, e) <= ApexVersion(apex)
  {
  }

  lemma UnchangedOutcome(t: Table, files: Files, apex: Apex)
    ensures Outcome(t, t, files, apex, false) && Touched(t, t, apex)
    ensures Reaches(EntriesOf(t, apex.manifest.name), files, ApexVersion(apex)) ==> Outcome(t, t, files, apex, true)
  {
    NoProgress(EntriesOf(t, apex.manifest.name), files, apex.path);
  }

  lemma FoundOutcome(t: Table, s: KState, files: Files, loose: set<string>, apex: Apex, d: MountedApexData)
    requires Coupled(t, s, files, loose) && Has(t, apex.manifest.name, d) && VersionOf(files, d) == ApexVersion(apex)
    requires apex.path in files && files[apex.path] == apex
    ensures d.mountPoint == PackageMountPoint(apex.manifest)
    ensures Outcome(t, t, files, apex, true)
    ensures HasTop(EntriesOf(t, apex.manifest.name), files) && !t[apex.manifest.name][d] ==>
              exists e :: e in EntriesOf(t, apex.manifest.name) && VersionOf(files, e) > ApexVersion(apex)
  {
    var p := apex.manifest.name;
    UnchangedOutcome(t, files, apex);
    assert EntryOk(files, p, d);
    UnsignedInjective(files[d.fullPath].manifest.version, apex.manifest.version);
    NoProgress(EntriesOf(t, p), files, apex.path);
    if HasTop(EntriesOf(t, p), files) {
      if t[p][d] {
        AlreadyLatest(t[p], files, d);
      } else {
        MountedNotLatest(t, s, files, loose, p, d);
      }
    }
  }

  lemma MountedOutcome(t: Table, t': Table, files: Files, apex: Apex, d: MountedApexData, newest: bool)
    requires Added(t, t', apex, d) && apex.path in files && files[apex.path] == apex
    requires newest <==> forall e | e in EntriesOf(t, apex.manifest.name) :: VersionOf(files, e) <= ApexVersion(apex)
    ensures Has(t', apex.manifest.name, d)
    ensures Touched(t, t', apex) && Touched(t, SetLatestIn(t', apex.manifest.name, d), apex)
    ensures !newest ==> Outcome(t, t', files, apex, true)
    ensures newest ==> Outcome(t, SetLatestIn(t', apex.manifest.name, d), files, apex, true)
  {
    var p := apex.manifest.name;
    var m := EntriesOf(t, p);
    assert d !in m && VersionOf(files, d) == ApexVersion(apex);
    if newest {
      NewestMounted(m, files, d);
      assert EntriesOf(SetLatestIn(t', p, d), p) == OnlyLatest(m[d := false], d);
    } else {
      var e :| e in m && VersionOf(files, e) > ApexVersion(apex);
      OlderMounted(m, files, d, e);
      assert EntriesOf(t', p) == m[d := false];
    }
  }

  lemma FoundNewestOutcome(t: Table, files: Files, apex: Apex, d: MountedApexData)
    requires Has(t, apex.manifest.name, d) && VersionOf(files, d) == ApexVersion(apex)
    requires forall e | e in EntriesOf(t, apex.manifest.name) :: VersionOf(files, e) <= ApexVersion(apex)
    ensures Outcome(t, SetLatestIn(t, apex.manifest.name, d), files, apex, true) && Touched(t, SetLatestIn(t, apex.manifest.name, d), apex)
  {
    NewestIsTop(t[apex.manifest.name], files, d);
  }

  // Two files of one version: the one that is mounted is not the one to be activated.
  ghost predicate OtherFileMounted(m: Entries, files: Files, apex: Apex) {
    exists d :: d in m && !m[d] && VersionOf(files, d) == ApexVersion(apex) && d.fullPath != apex.path
  }

  // When SetLatest aborts: such a pair, and no higher version mounted.
  ghost predicate AbortsOn(m: Entries, files: Files, apex: Apex) {
    OtherFileMounted(m, files, apex) && forall e | e in m :: VersionOf(files, e) <= ApexVersion(apex)
  }

  /** Theorem: while the highest version of a package is its latest, activating a file of it never aborts. */
  lemma TopNeverAborts(t: Table, s: KState, files: Files, loose: set<string>, apex: Apex)
    requires Coupled(t, s, files, loose) && HasTop(EntriesOf(t, apex.manifest.name), files)
    ensures !AbortsOn(EntriesOf(t, apex.manifest.name), files, apex)
  {
    var p := apex.manifest.name;
    forall d | d in EntriesOf(t, p) && !t[p][d] && VersionOf(files, d) == ApexVersion(apex)
      ensures exists e :: e in EntriesOf(t, p) && VersionOf(files, e) > ApexVersion(apex)
    {
      assert Has(t, p, d);
      MountedNotLatest(t, s, files, loose, p, d);
    }
  }

  lemma OneOfVersion(t: Table, s: KState, files: Files, loose: set<string>, p: string, v: nat)
    requires Coupled(t, s, files, loose)
    ensures forall d, e | d in EntriesOf(t, p) && e in EntriesOf(t, p) && VersionOf(files, d) == v && VersionOf(files, e) == v :: d == e
  {
    forall d, e | d in EntriesOf(t, p) && e in EntriesOf(t, p) && VersionOf(files, d) == v && VersionOf(files, e) == v
      ensures d == e
    {
      assert Has(t, p, d) && Has(t, p, e);
      SameVersionSameEntry(t, s, files, loose, p, d, e);
    }
  }

  // With one entry of the version at most, the test is about that entry.
  lemma AbortTest(m: Entries, files: Files, apex: Apex, newest: bool, foundMounted: bool, foundActive: bool, d: MountedApexData)
    requires newest <==> forall e | e in m :: VersionOf(files, e) <= ApexVersion(apex)
    requires foundMounted <==> exists e :: e in m && VersionOf(files, e) == ApexVersion(apex)
    requires foundMounted ==> d in m && VersionOf(files, d) == ApexVersion(apex) && foundActive == m[d]
    requires forall e, f | e in m && f in m && VersionOf(files, e) == ApexVersion(apex) && VersionOf(files, f) == ApexVersion(apex) :: e == f
    ensures AbortsOn(m, files, apex) <==> newest && foundMounted && !foundActive && d.fullPath != apex.path
  {
  }

  // Mounts that are new in b belong to entries, or are on the active mount point of the package.
  ghost predicate NewMountsOwned(a: KState, b: KState, t': Table, p: string) {
    b.plain <= a.plain && forall m | m in b.mounts :: m in a.mounts || m == ActiveMountPoint(p) || OwnedMount(t', m)
  }

  lemma OwnedAfterMount(a: KState, b: KState, c: KState, cfg: Config, t: Table, t': Table, u: Table, apex: Apex, d: MountedApexData)
    requires Added(t, t', apex, d) && AddedFields(a, b, cfg, apex, PackageId(apex.manifest), d)
    requires OnlyStack(b, c, ActiveMountPoint(apex.manifest.name)) && c.plain <= b.plain
    requires u == t' || u == SetLatestIn(t', apex.manifest.name, d)
    ensures NewMountsOwned(a, c, u, apex.manifest.name)
  {
    assert Has(u, apex.manifest.name, d);
  }

  lemma OwnedBefore(a: KState, b: KState, t: Table, p: string)
    requires b.plain <= a.plain && (b.mounts == a.mounts || OnlyStack(a, b, ActiveMountPoint(p)))
    ensures NewMountsOwned(a, b, t, p)
  {
  }

  lemma SameStack(s: KState, target: string)
    ensures OnlyStack(s, s, target)
  {
  }

  /** activatePackageImpl.  Table and kernel stay coupled, but for the active mount point of the package if the
      bind mount fails or SetLatest aborts; the latter happens, given the bind mount, exactly if another
      file of the same version is mounted but not latest and no higher version is mounted. */
  method ActivatePackageImpl(db: MountedApexDatabase, k: Kernel, cfg: Config, apex: Apex, files: Files, ghost loose: set<string>)
    returns (ok: bool, aborted: bool, bindFailed: bool)
    requires Ready(db.mounted, k.s, files, loose, apex)
    modifies db, k`s, k`faults, k`leaks, k`inverted, k`passed
    ensures k.leaks >= old(k.leaks) && k.faults >= old(k.faults) && (bindFailed ==> k.faults > old(k.faults))
    ensures (ok ==> !bindFailed && !aborted) && !(bindFailed && aborted)
    ensures Coupled(db.mounted, k.s, files, if bindFailed || aborted then loose + {apex.manifest.name} else loose)
    ensures Skips(cfg, apex) ==> ok && db.mounted == old(db.mounted) && k.s == old(k.s)
    ensures !Skips(cfg, apex) && !bindFailed ==>
              (aborted <==> AbortsOn(EntriesOf(old(db.mounted), apex.manifest.name), files, apex))
    ensures aborted ==> db.mounted == old(db.mounted)
    ensures ok && !Skips(cfg, apex) ==> ActivatedIn(old(db.mounted), db.mounted, k.s, files, loose, apex)
    ensures ok && !Skips(cfg, apex) && (forall e | e in EntriesOf(old(db.mounted), apex.manifest.name) :: VersionOf(files, e) != ApexVersion(apex)) ==>
              Checked(old(k.passed), k.passed, cfg, apex, PackageMountPoint(apex.manifest), PackageId(apex.manifest), false)
    ensures !ok ==> SameFlags(EntriesOf(old(db.mounted), apex.manifest.name), EntriesOf(db.mounted, apex.manifest.name))
    ensures !ok && !aborted && k.faults + k.leaks == old(k.faults + k.leaks) ==>
              !Mountable(old(k.s), cfg, apex, PackageMountPoint(apex.manifest))
              && forall e | e in EntriesOf(old(db.mounted), apex.manifest.name) :: VersionOf(files, e) != ApexVersion(apex)
    ensures Touched(old(db.mounted), db.mounted, apex)
    ensures !bindFailed && !aborted ==> Outcome(old(db.mounted), db.mounted, files, apex, ok && !Skips(cfg, apex))
    ensures k.leaks == old(k.leaks) ==> NewMountsOwned(old(k.s), k.s, db.mounted, apex.manifest.name)
    ensures Layered(old(db.mounted), old(k.s)) && k.leaks == old(k.leaks) ==>
              Layered(db.mounted, k.s) && k.inverted == old(k.inverted)
  {
    hide *;
    ghost var t, s := db.mounted, k.s;
    ReadyFacts(t, k.s, files, loose, apex);
    UnchangedOutcome(t, files, apex);
    UnchangedFlags(t, files, apex);
    OwnedBefore(s, s, t, apex.manifest.name);
    ok, aborted, bindFailed := true, false, false;
    if Skips(cfg, apex) {
      return;
    }
    var p := apex.manifest.name;
    OneOfVersion(t, s, files, loose, p, ApexVersion(apex));
    var newest, foundMounted, foundActive;
    ghost var d;
    newest, foundMounted, foundActive, d := CompareVersions(EntriesOf(db.mounted, p), files, ApexVersion(apex));
    AbortTest(EntriesOf(t, p), files, apex, newest, foundMounted, foundActive, d);
    if foundMounted {
      EntryHas(t, p, d);
      FoundOutcome(t, s, files, loose, apex, d);
      if foundActive || !newest {
        FoundIsActivated(t, s, files, loose, apex, d);
      }
      if foundActive {
        return;
      }
      if newest {
        FoundNewestOutcome(t, files, apex, d);
        ok, aborted := BindAndSetLatest(db, k, apex, d, files, loose);
        bindFailed := !ok && !aborted;
        if ok {
          SetLatestIsActivated(t, t, k.s, files, loose, apex, d);
        }
        OwnedStack(s, k.s, db.mounted, p);
      }
    } else {
      ok, aborted, bindFailed := MountAndActivate(db, k, cfg, apex, newest, files, loose);
    }
  }

  lemma EntryHas(t: Table, p: string, d: MountedApexData)
    requires d in EntriesOf(t, p)
    ensures Has(t, p, d) && t[p] == EntriesOf(t, p)
  {
  }

  lemma OwnedStack(a: KState, b: KState, t: Table, p: string)
    requires OnlyStack(a, b, ActiveMountPoint(p)) && b.plain <= a.plain
    ensures NewMountsOwned(a, b, t, p)
  {
  }

  // activatePackageImpl for a version that is not mounted yet.
  method MountAndActivate(db: MountedApexDatabase, k: Kernel, cfg: Config, apex: Apex, newest: bool, ghost files: Files, ghost loose: set<string>)
    returns (ok: bool, aborted: bool, bindFailed: bool)
    requires Ready(db.mounted, k.s, files, loose, apex)
    requires newest <==> forall e | e in EntriesOf(db.mounted, apex.manifest.name) :: VersionOf(files, e) <= ApexVersion(apex)
    modifies db, k`s, k`faults, k`leaks, k`inverted, k`passed
    ensures k.leaks >= old(k.leaks) && k.faults >= old(k.faults) && (bindFailed ==> k.faults > old(k.faults))
    ensures !aborted && (ok ==> !bindFailed)
    ensures ok ==> ActivatedIn(old(db.mounted), db.mounted, k.s, files, loose, apex)
                   && Checked(old(k.passed), k.passed, cfg, apex, PackageMountPoint(apex.manifest), PackageId(apex.manifest), false)
    ensures !ok ==> SameFlags(EntriesOf(old(db.mounted), apex.manifest.name), EntriesOf(db.mounted, apex.manifest.name))
    ensures Coupled(db.mounted, k.s, files, if bindFailed then loose + {apex.manifest.name} else loose)
    ensures !ok && k.faults + k.leaks == old(k.faults + k.leaks) ==> !Mountable(old(k.s), cfg, apex, PackageMountPoint(apex.manifest))
    ensures Touched(old(db.mounted), db.mounted, apex)
    ensures !bindFailed ==> Outcome(old(db.mounted), db.mounted, files, apex, ok)
    ensures k.leaks == old(k.leaks) ==> NewMountsOwned(old(k.s), k.s, db.mounted, apex.manifest.name)
    ensures Layered(old(db.mounted), old(k.s)) && k.leaks == old(k.leaks) ==>
              Layered(db.mounted, k.s) && k.inverted == old(k.inverted)
  {
    hide *;
    ghost var t, s, p := db.mounted, k.s, apex.manifest.name;
    ReadyFacts(t, s, files, loose, apex);
    UnchangedOutcome(t, files, apex);
    UnchangedFlags(t, files, apex);
    bindFailed := false;
    ghost var d;
    ok, aborted, d := MountPackage(db, k, cfg, apex, files, loose);
    ghost var t', b := db.mounted, k.s;
    if !ok {
      if k.leaks == old(k.leaks) {
        OwnedAfterClear(s, k.s, t, apex);
      }
      return;
    }
    MountedOutcome(t, t', files, apex, d, newest);
    SameStack(b, ActiveMountPoint(p));
    AddedPath(t, t', apex, d);
    AddedIsActivated(t, t', b, files, loose, apex, d);
    if newest {
      ok, aborted := BindAndSetLatest(db, k, apex, d, files, loose);
      bindFailed := !ok;
      if ok {
        SetLatestIsActivated(t, t', k.s, files, loose, apex, d);
      }
    }
    if k.leaks == old(k.leaks) {
      OwnedAfterMount(s, b, k.s, cfg, t, t', db.mounted, apex, d);
    }
  }

  lemma AddedPath(t: Table, t': Table, apex: Apex, d: MountedApexData)
    requires Added(t, t', apex, d)
    ensures d.fullPath == apex.path && d.mountPoint == PackageMountPoint(apex.manifest)
  {
  }

  lemma OwnedAfterClear(a: KState, b: KState, t: Table, apex: Apex)
    requires Cleared(a, b, PackageMountPoint(apex.manifest), PackageId(apex.manifest))
    ensures NewMountsOwned(a, b, t, apex.manifest.name)
  {
  }

  /** An input on which it aborts: the file of version 1 in the active directory is mounted, but its bind mount
      failed, and then the builtin file of the same version is activated. */
  const DATA_APEX := Apex("/data/apex/active/a@1.apex", Manifest("a", 1), false)
  const SYSTEM_APEX := Apex("/system/apex/a.apex", Manifest("a", 1), false)
  const LEFT_MOUNTED := MountedApexData("/dev/block/loop0", DATA_APEX.path, PackageMountPoint(DATA_APEX.manifest), PackageId(DATA_APEX.manifest))

  lemma SecondFileAborts()
    ensures var files := map[DATA_APEX.path := DATA_APEX, SYSTEM_APEX.path := SYSTEM_APEX];
      var t := map["a" := map[LEFT_MOUNTED := false]];
      var s := KState(
        map[LEFT_MOUNTED.loopName := Loop(DATA_APEX.path, true)], map[LEFT_MOUNTED.deviceName := LEFT_MOUNTED.loopName],
        map[LEFT_MOUNTED.mountPoint := [OnDm(LEFT_MOUNTED.deviceName)]], {LEFT_MOUNTED.mountPoint}, {});
      Ready(t, s, files, {}, SYSTEM_APEX) && AbortsOn(EntriesOf(t, "a"), files, SYSTEM_APEX)
  {
    var m := map[LEFT_MOUNTED := false];
    assert LEFT_MOUNTED in m && !m[LEFT_MOUNTED];
    hide PackageId, PackageMountPoint;
  }
}
