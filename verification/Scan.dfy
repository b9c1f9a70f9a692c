// Activating what lies in the package directories (apexd.cpp).
module Scan {
  import opened Names
  import opened Database
  import opened KernelModel
  import opened Mount
  import opened Coupling
  import opened Activation
  import opened Versions
  import opened Activate

  // deactivatePackage
  method DeactivatePackage(db: MountedApexDatabase, k: Kernel, path: string, files: Files, ghost loose: set<string>) returns (ok: bool)
    requires FilesOk(files) && Coupled(db.mounted, k.s, files, loose)
    modifies db, k`s, k`leaks, k`inverted
    ensures Coupled(db.mounted, k.s, files, loose) && k.leaks >= old(k.leaks)
    ensures path !in files ==> !ok && db.mounted == old(db.mounted) && k.s == old(k.s)
    ensures forall d | path in files && Has(old(db.mounted), files[path].manifest.name, d) && d.fullPath == path ::
              UnmountOutcome(old(db.mounted), old(k.s), db.mounted, k.s, files[path].manifest.name, d, true, ok, k.leaks == old(k.leaks),
                             files[path].manifest.name !in loose)
    ensures ok ==> forall d | Has(old(db.mounted), files[path].manifest.name, d) && d.fullPath == path ::
              TakenDown(old(db.mounted), old(k.s), k.s, files[path].manifest.name, d)
    ensures Layered(old(db.mounted), old(k.s)) && k.leaks == old(k.leaks) ==>
              Layered(db.mounted, k.s) && k.inverted == old(k.inverted)
  {
    if path !in files {
      return false;
    }
    hide Coupled, Layered, UnmountOutcome, TakenDown;
    ok := UnmountPackage(db, k, files[path], true, files, loose);
  }

  // The versions of those of these entries that are marked latest.
  ghost predicate ActiveVersions(t: Table, files: Files, entries: set<(string, MountedApexData)>, r: map<string, nat>) {
    && (forall x | x in entries && Latest(t, x.0, x.1) :: x.0 in r && r[x.0] == VersionOf(files, x.1))
    && (forall p | p in r :: exists d :: (p, d) in entries && Latest(t, p, d) && r[p] == VersionOf(files, d))
  }

  lemma OneMoreActive(t: Table, files: Files, done: set<(string, MountedApexData)>, r: map<string, nat>, x: (string, MountedApexData))
    requires ActiveVersions(t, files, done, r) && EachAtMostOneLatest(t) && x !in done
    ensures Latest(t, x.0, x.1) ==> x.0 !in r && ActiveVersions(t, files, done + {x}, r[x.0 := VersionOf(files, x.1)])
    ensures !Latest(t, x.0, x.1) ==> ActiveVersions(t, files, done + {x}, r)
  {
    assert forall d | Latest(t, x.0, d) && Latest(t, x.0, x.1) :: (x.0, d) == x;
    hide VersionOf, Latest, EachAtMostOneLatest;
  }

  // GetActivePackagesMap: the versions of the entries marked latest.
  method GetActivePackagesMap(t: Table, files: Files, ghost loose: set<string>, ghost s: KState) returns (r: map<string, nat>)
    requires Coupled(t, s, files, loose)
    ensures forall p, d | Latest(t, p, d) :: p in r && r[p] == VersionOf(files, d)
    ensures forall p | p in r :: exists d :: Latest(t, p, d) && r[p] == VersionOf(files, d)
  {
    r := map[];
    var left := Pairs(t);
    assert EachAtMostOneLatest(t) && ActiveVersions(t, files, Pairs(t) - left, r);
    hide *;
    while left != {}
      invariant left <= Pairs(t) && ActiveVersions(t, files, Pairs(t) - left, r)
      decreases left
    {
      var x :| x in left;
      EntryVersion(t, s, files, loose, x.0, x.1);
      OneMoreActive(t, files, Pairs(t) - left, r, x);
      if t[x.0][x.1] {
        var name := files[x.1.fullPath].manifest.name;
        if name !in r {
          r := r[name := ApexVersion(files[x.1.fullPath])];
        }
      }
      assert Pairs(t) - (left - {x}) == Pairs(t) - left + {x};
      left := left - {x};
    }
    assert Pairs(t) - left == Pairs(t);
    AllVersions(t, files, r);
  }

  lemma AllVersions(t: Table, files: Files, r: map<string, nat>)
    requires ActiveVersions(t, files, Pairs(t), r)
    ensures forall p, d | Latest(t, p, d) :: p in r && r[p] == VersionOf(files, d)
    ensures forall p | p in r :: exists d :: Latest(t, p, d) && r[p] == VersionOf(files, d)
  {
    forall p, d | Latest(t, p, d)
      ensures p in r && r[p] == VersionOf(files, d)
    {
      assert (p, d) in Pairs(t);
    }
  }

  lemma EntryVersion(t: Table, s: KState, files: Files, loose: set<string>, p: string, d: MountedApexData)
    requires Coupled(t, s, files, loose) && (p, d) in Pairs(t)
    ensures p in t && d in t[p] && (t[p][d] <==> Latest(t, p, d)) && d.fullPath in files
    ensures files[d.fullPath].manifest.name == p && VersionOf(files, d) == ApexVersion(files[d.fullPath])
  {
    assert Has(t, p, d) && EntryOk(files, p, d);
  }

  /** What a scan leaves */

  function NameOf(files: Files, path: string): string {
    if path in files then files[path].manifest.name else ""
  }

  // Some version from v on is the latest.
  ghost predicate LatestAtLeast(m: Entries, files: Files, v: nat) {
    exists d :: d in m && m[d] && VersionOf(files, d) >= v
  }

  // Version v is mounted, or one from v on is the latest; and if none is higher, v is the latest.
  ghost predicate Placed(m: Entries, files: Files, v: nat) {
    && (LatestAtLeast(m, files, v) || exists d :: d in m && VersionOf(files, d) == v)
    && ((forall e | e in m :: VersionOf(files, e) <= v) ==> exists d :: IsTop(m, files, d) && VersionOf(files, d) == v)
  }

  ghost predicate KeepsVersions(m: Entries, m': Entries, files: Files) {
    && (forall v: nat | LatestAtLeast(m, files, v) :: LatestAtLeast(m', files, v))
    && (forall v: nat | Placed(m, files, v) :: Placed(m', files, v))
  }

  // Entries were added for the listed files only, what was placed still is, and except for unbound packages
  // every highest version that was latest still is, or a higher one is.
  ghost predicate Scanned(t: Table, t': Table, files: Files, paths: seq<string>, unbound: set<string>) {
    && (forall p | p !in unbound :: Progress(EntriesOf(t, p), EntriesOf(t', p), files))
    && (forall p :: KeepsVersions(EntriesOf(t, p), EntriesOf(t', p), files))
    && (forall p, d | Has(t, p, d) :: Has(t', p, d))
    && (forall p, d | Has(t', p, d) :: Has(t, p, d) || d.fullPath in paths)
  }

  // The packages that the configuration lets be activated: flattened ones if the device is not updatable, and while
  // bootstrapping the two that are needed early; these two are not activated again where they cannot be updated.
  ghost predicate TakesPart(cfg: Config, apex: Apex) {
    var early := apex.manifest.name == "com.android.runtime" || apex.manifest.name == "com.android.tzdata";
    (cfg.updatable || apex.flattened) && if cfg.bootstrap then early else cfg.updatable || !early
  }

  // Each of these files failed, or can be opened and is placed if it takes part.
  ghost predicate PlacedBut(t: Table, cfg: Config, files: Files, paths: seq<string>, failed: seq<string>) {
    forall path | path in paths ::
      path in failed ||
      (path in files && (TakesPart(cfg, files[path]) ==> Placed(EntriesOf(t, NameOf(files, path)), files, ApexVersion(files[path]))))
  }

  // The latest entry of the package has at least the version of the file.
  ghost predicate Covered(t: Table, files: Files, path: string) {
    path in files && Reaches(EntriesOf(t, files[path].manifest.name), files, ApexVersion(files[path]))
  }

  // So for each of these files that did not fail and whose package was bound.
  ghost predicate CoveredBut(t: Table, cfg: Config, files: Files, paths: seq<string>, failed: seq<string>, unbound: set<string>) {
    forall path | path in paths ::
      path in failed || NameOf(files, path) in unbound || (path in files && (TakesPart(cfg, files[path]) ==> Covered(t, files, path)))
  }

  // Except for these packages the highest version is latest.
  ghost predicate LatestIsMaxBut(t: Table, files: Files, unbound: set<string>) {
    forall p | p !in unbound :: HasTop(EntriesOf(t, p), files)
  }

  lemma NothingScanned(t: Table, files: Files, paths: seq<string>)
    ensures Scanned(t, t, files, paths, {})
  {
  }

  lemma ScannedTwice(t: Table, t1: Table, t2: Table, files: Files, paths: seq<string>, more: seq<string>,
                     unbound: set<string>, also: set<string>)
    requires Scanned(t, t1, files, paths, unbound) && Scanned(t1, t2, files, more, also)
    ensures Scanned(t, t2, files, paths + more, unbound + also)
  {
    forall p
      ensures KeepsVersions(EntriesOf(t, p), EntriesOf(t2, p), files)
      ensures p !in unbound + also ==> Progress(EntriesOf(t, p), EntriesOf(t2, p), files)
    {
      assert KeepsVersions(EntriesOf(t, p), EntriesOf(t1, p), files) && KeepsVersions(EntriesOf(t1, p), EntriesOf(t2, p), files);
      assert p !in unbound + also ==> Progress(EntriesOf(t, p), EntriesOf(t1, p), files) && Progress(EntriesOf(t1, p), EntriesOf(t2, p), files);
      hide LatestAtLeast, Placed, HasTop, Reaches, EntriesOf;
    }
    hide KeepsVersions, Progress, EntriesOf;
  }

  lemma ScannedKeepsMax(t: Table, t': Table, files: Files, paths: seq<string>, unbound: set<string>, also: set<string>)
    requires Scanned(t, t', files, paths, also) && LatestIsMaxBut(t, files, unbound)
    ensures LatestIsMaxBut(t', files, unbound + also)
  {
    hide KeepsVersions;
    forall p | p !in unbound + also
      ensures HasTop(EntriesOf(t', p), files)
    {
      assert Progress(EntriesOf(t, p), EntriesOf(t', p), files);
    }
  }

  lemma ScannedKeepsPlaced(t: Table, t': Table, cfg: Config, files: Files, paths: seq<string>, more: seq<string>, unbound: set<string>, failed: seq<string>)
    requires Scanned(t, t', files, more, unbound) && PlacedBut(t, cfg, files, paths, failed)
    ensures PlacedBut(t', cfg, files, paths, failed)
  {
    forall p, v: nat | Placed(EntriesOf(t, p), files, v)
      ensures Placed(EntriesOf(t', p), files, v)
    {
      assert KeepsVersions(EntriesOf(t, p), EntriesOf(t', p), files);
    }
    hide Scanned, Placed, EntriesOf, TakesPart;
  }

  // What a restart leaves is what the scans begin with.
  lemma MaxIsMaxBut(t: Table, files: Files)
    ensures LatestIsMax(t, files) <==> LatestIsMaxBut(t, files, {})
  {
    if LatestIsMaxBut(t, files, {}) {
      forall p | p in t
        ensures HasTop(t[p], files)
      {
        assert HasTop(EntriesOf(t, p), files);
      }
    }
  }

  lemma LatestIsPlaced(m: Entries, files: Files, v: nat)
    requires LatestAtLeast(m, files, v)
    ensures Placed(m, files, v)
  {
    var d :| d in m && m[d] && VersionOf(files, d) >= v;
    assert (forall e | e in m :: VersionOf(files, e) <= v) ==> IsTop(m, files, d);
  }

  // Where the highest version is the latest, what is placed is covered by it.
  lemma PlacedIsReached(m: Entries, files: Files, v: nat)
    requires Placed(m, files, v) && HasTop(m, files)
    ensures Reaches(m, files, v)
  {
    var d :| d in m && VersionOf(files, d) >= v;
    var top :| IsTop(m, files, top);
  }

  lemma PlacedButIsCovered(t: Table, cfg: Config, files: Files, paths: seq<string>, failed: seq<string>, unbound: set<string>)
    requires PlacedBut(t, cfg, files, paths, failed) && LatestIsMaxBut(t, files, unbound)
    ensures CoveredBut(t, cfg, files, paths, failed, unbound)
  {
    forall path | path in paths && path !in failed && NameOf(files, path) !in unbound && path in files && TakesPart(cfg, files[path])
      ensures Covered(t, files, path)
    {
      assert HasTop(EntriesOf(t, NameOf(files, path)), files);
      PlacedIsReached(EntriesOf(t, NameOf(files, path)), files, ApexVersion(files[path]));
    }
    hide TakesPart, Placed, Covered;
  }

  /** One file */

  // What activating a file may do to the entries of its package.
  ghost predicate Moved(m: Entries, m': Entries, files: Files, apex: Apex) {
    SameFlags(m, m') || exists d :: ActivatedAs(m, m', files, apex, d)
  }

  lemma FlagsKeepVersions(m: Entries, m': Entries, files: Files)
    requires m.Keys <= m'.Keys && SameFlags(m, m')
    ensures KeepsVersions(m, m', files)
  {
    assert forall d | d in m :: d in m' && m'[d] == m[d];
    forall v: nat | LatestAtLeast(m, files, v)
      ensures LatestAtLeast(m', files, v)
    {
      var d :| d in m && m[d] && VersionOf(files, d) >= v;
      assert d in m' && m'[d];
    }
    forall v: nat | Placed(m, files, v)
      ensures Placed(m', files, v)
    {
      if forall e | e in m' :: VersionOf(files, e) <= v {
        var d :| IsTop(m, files, d) && VersionOf(files, d) == v;
        assert IsTop(m', files, d);
      }
      if !LatestAtLeast(m, files, v) {
        var d :| d in m && VersionOf(files, d) == v;
        assert d in m';
      }
    }
  }

  lemma ActivatedIsPlaced(m: Entries, m': Entries, files: Files, apex: Apex, d: MountedApexData)
    requires ActivatedAs(m, m', files, apex, d) && m.Keys <= m'.Keys
    ensures Placed(m', files, ApexVersion(apex))
  {
    assert d in m';
    if forall e | e in m' :: VersionOf(files, e) <= ApexVersion(apex) {
      assert NoneHigher(m, files, apex);
      assert IsTop(m', files, d);
    }
  }

  lemma ActivatedKeepsVersions(m: Entries, m': Entries, files: Files, apex: Apex, d: MountedApexData)
    requires ActivatedAs(m, m', files, apex, d) && m.Keys <= m'.Keys
    ensures KeepsVersions(m, m', files)
  {
    if !NoneHigher(m, files, apex) {
      FlagsKeepVersions(m, m', files);
    } else {
      var w := ApexVersion(apex);
      assert d in m' && m'[d];
      forall v: nat | LatestAtLeast(m, files, v)
        ensures LatestAtLeast(m', files, v)
      {
        var e :| e in m && m[e] && VersionOf(files, e) >= v;
      }
      forall v: nat | Placed(m, files, v)
        ensures Placed(m', files, v)
      {
        var e :| e in m && VersionOf(files, e) >= v;
        assert VersionOf(files, e) <= w && LatestAtLeast(m', files, v);
        LatestIsPlaced(m', files, v);
      }
    }
  }

  lemma MovedKeepsVersions(m: Entries, m': Entries, files: Files, apex: Apex)
    requires Moved(m, m', files, apex) && m.Keys <= m'.Keys
    ensures KeepsVersions(m, m', files)
  {
    if SameFlags(m, m') {
      FlagsKeepVersions(m, m', files);
    } else {
      var d :| ActivatedAs(m, m', files, apex, d);
      ActivatedKeepsVersions(m, m', files, apex, d);
    }
  }

  // What activating the file at a path did to the table; unbound is the package if its bind mount failed.
  ghost predicate Step(t: Table, t': Table, files: Files, path: string, unbound: set<string>) {
    t' == t || (path in files && Touched(t, t', files[path])
                && Moved(EntriesOf(t, NameOf(files, path)), EntriesOf(t', NameOf(files, path)), files, files[path])
                && (NameOf(files, path) !in unbound ==> Outcome(t, t', files, files[path], false)))
  }

  lemma StepIsScan(t: Table, t': Table, files: Files, path: string, unbound: set<string>)
    requires FilesOk(files) && Step(t, t', files, path, unbound)
    ensures Scanned(t, t', files, [path], unbound)
  {
    if t' == t {
      NothingScanned(t, files, [path]);
    } else {
      var p := files[path].manifest.name;
      MovedKeepsVersions(EntriesOf(t, p), EntriesOf(t', p), files, files[path]);
      hide KeepsVersions, Moved, Progress;
      forall q
        ensures KeepsVersions(EntriesOf(t, q), EntriesOf(t', q), files)
        ensures q !in unbound ==> Progress(EntriesOf(t, q), EntriesOf(t', q), files)
      {
        assert q != p ==> EntriesOf(t', q) == EntriesOf(t, q);
        if q != p {
          SameEntriesProgress(EntriesOf(t, q), files);
        }
      }
      assert forall q, d :: Has(t, q, d) <==> d in EntriesOf(t, q);
      assert forall q, d :: Has(t', q, d) <==> d in EntriesOf(t', q);
    }
  }

  lemma SameEntriesProgress(m: Entries, files: Files)
    ensures Progress(m, m, files) && KeepsVersions(m, m, files)
  {
  }

  // A file that can be activated if no call fails: it opens, its kind fits, and its mount point is free or its own.
  ghost predicate Activatable(t: Table, s: KState, cfg: Config, files: Files, path: string) {
    && path in files && KindFits(cfg, files[path])
    && var m := PackageMountPoint(files[path].manifest);
       m !in s.plain && (m in s.mounts ==> OwnedMount(t, m))
  }

  ghost predicate KeepsActivatable(t: Table, a: KState, u: Table, b: KState, cfg: Config, files: Files) {
    forall path | Activatable(t, a, cfg, files, path) :: Activatable(u, b, cfg, files, path)
  }

  // How many of these files could have been activated.
  ghost function Able(t: Table, s: KState, cfg: Config, files: Files, failed: seq<string>): nat {
    if failed == [] then 0
    else Able(t, s, cfg, files, failed[..|failed| - 1]) + if Activatable(t, s, cfg, files, failed[|failed| - 1]) then 1 else 0
  }

  lemma {:induction false} NoneAble(t: Table, s: KState, cfg: Config, files: Files, failed: seq<string>)
    requires Able(t, s, cfg, files, failed) == 0
    ensures forall path | path in failed :: !Activatable(t, s, cfg, files, path)
  {
    if failed != [] {
      var init, last := failed[..|failed| - 1], failed[|failed| - 1];
      NoneAble(t, s, cfg, files, init);
      assert failed == init + [last];
    }
  }

  lemma OneMoreAble(t: Table, s: KState, cfg: Config, files: Files, failed: seq<string>, path: string)
    ensures Able(t, s, cfg, files, failed + [path])
         == Able(t, s, cfg, files, failed) + if Activatable(t, s, cfg, files, path) then 1 else 0
  {
    assert (failed + [path])[..|failed|] == failed;
  }

  lemma {:induction false} AbleLater(t: Table, a: KState, u: Table, b: KState, cfg: Config, files: Files, failed: seq<string>, again: seq<string>)
    requires KeepsActivatable(t, a, u, b, cfg, files)
    ensures Able(t, a, cfg, files, failed + again) <= Able(t, a, cfg, files, failed) + Able(u, b, cfg, files, again)
  {
    hide Activatable;
    if again == [] {
      assert failed + again == failed;
    } else {
      var init, last := again[..|again| - 1], again[|again| - 1];
      AbleLater(t, a, u, b, cfg, files, failed, init);
      assert failed + again == failed + init + [last];
      OneMoreAble(t, a, cfg, files, failed + init, last);
    }
  }

  lemma NewMountsKeepActivatable(t: Table, a: KState, u: Table, b: KState, cfg: Config, files: Files, p: string)
    requires NewMountsOwned(a, b, u, p) && '@' !in p
    requires forall q, d | Has(t, q, d) :: Has(u, q, d)
    ensures KeepsActivatable(t, a, u, b, cfg, files)
  {
    forall path | Activatable(t, a, cfg, files, path)
      ensures Activatable(u, b, cfg, files, path)
    {
      MountPointsAreNotActivePoints(files[path].manifest, p);
      var m := PackageMountPoint(files[path].manifest);
      if m in a.mounts {
        var q, d :| Has(t, q, d) && d.mountPoint == m;
        assert Has(u, q, d);
      }
    }
  }

  // If such a file cannot be mounted, its version is mounted already.
  lemma TakenByItself(t: Table, s: KState, cfg: Config, files: Files, loose: set<string>, path: string)
    requires Coupled(t, s, files, loose) && Activatable(t, s, cfg, files, path)
    requires !Mountable(s, cfg, files[path], PackageMountPoint(files[path].manifest))
    ensures exists e :: e in EntriesOf(t, files[path].manifest.name) && VersionOf(files, e) == ApexVersion(files[path])
  {
    var q, e :| Has(t, q, e) && e.mountPoint == PackageMountPoint(files[path].manifest);
    assert EntryOk(files, q, e);
    PackageMountPointInjective(files[path].manifest, files[e.fullPath].manifest);
    assert e in EntriesOf(t, files[path].manifest.name);
  }

  // How the loop of scanPackagesDirAndActivate goes on after a file, unless SetLatest aborts.
  ghost predicate Found(t: Table, a: KState, u: Table, b: KState, cfg: Config, files: Files, path: string,
                        ok: bool, unbound: set<string>, noLeak: bool, faults: nat) {
    && Step(t, u, files, path, unbound) && unbound <= {NameOf(files, path)} && (ok ==> path in files && unbound == {})
    && (ok && TakesPart(cfg, files[path]) ==> Placed(EntriesOf(u, NameOf(files, path)), files, ApexVersion(files[path])))
    && (noLeak ==> KeepsActivatable(t, a, u, b, cfg, files) && (ok || faults > 0 || !Activatable(t, a, cfg, files, path)))
  }

  // GetActivePackagesMap at the start still tells of latest versions.
  ghost predicate ActiveMapOf(t: Table, files: Files, active: map<string, nat>) {
    forall p | p in active :: LatestAtLeast(EntriesOf(t, p), files, active[p])
  }

  lemma IsActiveMap(t: Table, files: Files, active: map<string, nat>)
    requires forall p | p in active :: exists d :: Latest(t, p, d) && active[p] == VersionOf(files, d)
    ensures ActiveMapOf(t, files, active)
  {
    forall p | p in active
      ensures LatestAtLeast(EntriesOf(t, p), files, active[p])
    {
      var d :| Latest(t, p, d) && active[p] == VersionOf(files, d);
      assert d in EntriesOf(t, p) && EntriesOf(t, p)[d];
    }
  }

  lemma ScannedKeepsActiveMap(t: Table, u: Table, files: Files, paths: seq<string>, unbound: set<string>, active: map<string, nat>)
    requires Scanned(t, u, files, paths, unbound) && ActiveMapOf(t, files, active)
    ensures ActiveMapOf(u, files, active)
  {
    forall p | p in active
      ensures LatestAtLeast(EntriesOf(u, p), files, active[p])
    {
      assert KeepsVersions(EntriesOf(t, p), EntriesOf(u, p), files);
    }
  }

  lemma NotOpened(t: Table, s: KState, cfg: Config, files: Files, path: string)
    requires path !in files
    ensures Found(t, s, t, s, cfg, files, path, false, {}, true, 0)
  {
  }

  lemma SkippedFound(t: Table, s: KState, cfg: Config, files: Files, path: string, active: map<string, nat>)
    requires path in files && ActiveMapOf(t, files, active)
    requires (NameOf(files, path) in active && active[NameOf(files, path)] >= ApexVersion(files[path])) || !TakesPart(cfg, files[path])
    ensures Found(t, s, t, s, cfg, files, path, true, {}, true, 0)
  {
    var p, v := NameOf(files, path), ApexVersion(files[path]);
    if p in active && active[p] >= v {
      assert LatestAtLeast(EntriesOf(t, p), files, active[p]);
      var d :| d in EntriesOf(t, p) && EntriesOf(t, p)[d] && VersionOf(files, d) >= active[p];
      assert LatestAtLeast(EntriesOf(t, p), files, v);
      LatestIsPlaced(EntriesOf(t, p), files, v);
    }
  }

  lemma ActivationMoved(t: Table, u: Table, b: KState, cfg: Config, files: Files, loose: set<string>, path: string, ok: bool)
    requires path in files && Touched(t, u, files[path])
    requires if ok && !Skips(cfg, files[path]) then ActivatedIn(t, u, b, files, loose, files[path])
             else if ok then u == t else SameFlags(EntriesOf(t, NameOf(files, path)), EntriesOf(u, NameOf(files, path)))
    ensures Moved(EntriesOf(t, NameOf(files, path)), EntriesOf(u, NameOf(files, path)), files, files[path])
    ensures ok && TakesPart(cfg, files[path]) ==> Placed(EntriesOf(u, NameOf(files, path)), files, ApexVersion(files[path]))
  {
    var p := NameOf(files, path);
    if ok && !Skips(cfg, files[path]) {
      var d :| ActivatedAs(EntriesOf(t, p), EntriesOf(u, p), files, files[path], d);
      ActivatedIsPlaced(EntriesOf(t, p), EntriesOf(u, p), files, files[path], d);
    }
    hide Placed, ActivatedAs;
  }

  lemma ActivationFound(t: Table, a: KState, u: Table, b: KState, cfg: Config, files: Files, loose: set<string>, path: string,
                        ok: bool, unbound: set<string>, noLeak: bool, faults: nat)
    requires Coupled(t, a, files, loose) && FilesOk(files) && path in files && Touched(t, u, files[path])
    requires if ok && !Skips(cfg, files[path]) then ActivatedIn(t, u, b, files, loose, files[path])
             else if ok then u == t else SameFlags(EntriesOf(t, NameOf(files, path)), EntriesOf(u, NameOf(files, path)))
    requires if unbound == {} then Outcome(t, u, files, files[path], ok && !Skips(cfg, files[path]))
             else !ok && unbound == {files[path].manifest.name}
    requires noLeak ==> NewMountsOwned(a, b, u, files[path].manifest.name)
    requires noLeak && !ok && faults == 0 ==>
               !Mountable(a, cfg, files[path], PackageMountPoint(files[path].manifest))
               && forall e | e in EntriesOf(t, files[path].manifest.name) :: VersionOf(files, e) != ApexVersion(files[path])
    ensures Found(t, a, u, b, cfg, files, path, ok, unbound, noLeak, faults)
  {
    ActivationMoved(t, u, b, cfg, files, loose, path, ok);
    if noLeak {
      EntriesStay(t, u, files[path]);
      NewMountsKeepActivatable(t, a, u, b, cfg, files, files[path].manifest.name);
      if !ok && faults == 0 && Activatable(t, a, cfg, files, path) {
        TakenByItself(t, a, cfg, files, loose, path);
      }
    }
    hide Coupled, FilesOk, Activatable, KeepsActivatable, Mountable, NewMountsOwned, Progress, HasTop, PackageMountPoint, Moved, Placed, TakesPart, ActivatedIn, SameFlags;
  }

  lemma EntriesStay(t: Table, u: Table, apex: Apex)
    requires Touched(t, u, apex)
    ensures forall q, d | Has(t, q, d) :: Has(u, q, d)
  {
    forall q, d | Has(t, q, d)
      ensures Has(u, q, d)
    {
      assert d in EntriesOf(t, q) && d in EntriesOf(u, q);
    }
  }

  // Where SetLatest aborted: at one of these files, which leaves the active mount point of its package in an unknown state.
  ghost predicate AbortedAt(t: Table, s: KState, files: Files, loose: set<string>, path: string) {
    path in files && AbortsOn(EntriesOf(t, files[path].manifest.name), files, files[path])
    && Coupled(t, s, files, loose + {files[path].manifest.name})
  }

  // inLoose: the package of that file is one of those whose active mount point was in an unknown state before.
  ghost predicate AbortedAmong(t: Table, s: KState, files: Files, loose: set<string>, paths: seq<string>, inLoose: bool) {
    exists path :: path in paths && AbortedAt(t, s, files, loose, path) && (inLoose ==> NameOf(files, path) in loose)
  }

  lemma AbortFound(t: Table, s: KState, files: Files, loose: set<string>, paths: seq<string>, i: nat, inLoose: bool)
    requires i < |paths| && AbortedAt(t, s, files, loose, paths[i]) && (inLoose ==> NameOf(files, paths[i]) in loose)
    ensures AbortedAmong(t, s, files, loose, paths, inLoose)
  {
    assert paths[i] in paths;
  }

  // The body of the loop of scanPackagesDirAndActivate.
  method ActivateFound(db: MountedApexDatabase, k: Kernel, cfg: Config, path: string, active: map<string, nat>,
                       files: Files, ghost loose: set<string>)
    returns (ok: bool, aborted: bool, ghost unbound: set<string>)
    requires FilesOk(files) && Coupled(db.mounted, k.s, files, loose) && ActiveMapOf(db.mounted, files, active)
    modifies db, k`s, k`faults, k`leaks, k`inverted, k`passed
    ensures k.leaks >= old(k.leaks) && k.faults >= old(k.faults) && |unbound| <= k.faults - old(k.faults)
    ensures aborted ==> AbortedAt(db.mounted, k.s, files, loose, path) && db.mounted == old(db.mounted) && unbound == {}
    ensures !aborted ==> Coupled(db.mounted, k.s, files, loose + unbound)
    ensures !aborted ==> Found(old(db.mounted), old(k.s), db.mounted, k.s, cfg, files, path, ok, unbound,
                               k.leaks == old(k.leaks), k.faults - old(k.faults))
    ensures Layered(old(db.mounted), old(k.s)) && k.leaks == old(k.leaks) ==>
              Layered(db.mounted, k.s) && k.inverted == old(k.inverted)
  {
    ghost var t, s := db.mounted, k.s;
    aborted, unbound := false, {};
    assert loose + {} == loose;
    if path !in files {
      NotOpened(t, s, cfg, files, path);
      return false, false, {};
    }
    var apex := files[path];
    var p := apex.manifest.name;
    if (p in active && active[p] >= ApexVersion(apex)) || (!cfg.updatable && !apex.flattened) {
      SkippedFound(t, s, cfg, files, path, active);
      return true, false, {};
    }
    assert Ready(t, s, files, loose, apex);
    hide Ready, Coupled, Layered, OnlyStack, Outcome, Touched, Mountable, NewMountsOwned, AbortsOn, Found, ActivatedIn, SameFlags, ActiveMapOf, Skips;
    var bindFailed;
    ok, aborted, bindFailed := ActivatePackageImpl(db, k, cfg, apex, files, loose);
    if !aborted {
      unbound := if bindFailed then {p} else {};
      ActivationFound(t, s, db.mounted, k.s, cfg, files, loose, path, ok, unbound, k.leaks == old(k.leaks), k.faults - old(k.faults));
    }
  }

  /** The whole scan */

  // The state of a scan after i files.
  ghost predicate Going(t: Table, a: KState, u: Table, b: KState, cfg: Config, files: Files, paths: seq<string>, i: nat,
                        failed: seq<string>, unbound: set<string>, noLeak: bool, faults: nat)
    requires i <= |paths|
  {
    && Scanned(t, u, files, paths[..i], unbound) && UnboundFailed(files, paths, failed, unbound)
    && PlacedBut(u, cfg, files, paths[..i], failed)
    && (noLeak ==> KeepsActivatable(t, a, u, b, cfg, files) && Able(t, a, cfg, files, failed) <= faults)
  }

  // Every failed file is one of those listed, and every package whose bind mount failed has one among them.
  ghost predicate UnboundFailed(files: Files, paths: seq<string>, failed: seq<string>, unbound: set<string>) {
    && (forall path | path in failed :: path in paths)
    && (forall p | p in unbound :: exists path :: path in failed && NameOf(files, path) == p)
  }

  lemma OneMoreFailed(files: Files, paths: seq<string>, failed: seq<string>, path: string, unbound: set<string>, also: set<string>, ok: bool)
    requires UnboundFailed(files, paths, failed, unbound) && path in paths
    requires also <= {NameOf(files, path)} && (ok ==> also == {})
    ensures UnboundFailed(files, paths, if ok then failed else failed + [path], unbound + also)
  {
    var failed' := if ok then failed else failed + [path];
    assert forall x :: x in failed' <==> x in failed || (!ok && x == path);
  }

  lemma Union(loose: set<string>, unbound: set<string>, also: set<string>) returns (all: set<string>)
    ensures all == unbound + also && |all| <= |unbound| + |also| && loose + all == loose + unbound + also
  {
    all := unbound + also;
    assert loose + all == loose + unbound + also;
  }

  lemma NothingUnbound(files: Files, paths: seq<string>, unbound: set<string>)
    requires UnboundFailed(files, paths, [], unbound)
    ensures unbound == {}
  {
  }

  lemma GoingBegins(t: Table, s: KState, cfg: Config, files: Files, paths: seq<string>)
    ensures Going(t, s, t, s, cfg, files, paths, 0, [], {}, true, 0)
  {
    assert paths[..0] == [];
  }

  lemma PlacedNext(u: Table, u': Table, cfg: Config, files: Files, paths: seq<string>, path: string, failed: seq<string>, also: set<string>, ok: bool)
    requires PlacedBut(u, cfg, files, paths, failed) && Scanned(u, u', files, [path], also)
    requires ok ==> path in files
    requires ok && TakesPart(cfg, files[path]) ==> Placed(EntriesOf(u', NameOf(files, path)), files, ApexVersion(files[path]))
    ensures PlacedBut(u', cfg, files, paths + [path], if ok then failed else failed + [path])
  {
    ScannedKeepsPlaced(u, u', cfg, files, paths, [path], also, failed);
    hide Scanned, Placed, TakesPart, EntriesOf;
  }

  lemma AbleNext(t: Table, a: KState, u: Table, b: KState, cfg: Config, files: Files, failed: seq<string>, path: string, ok: bool, faults: nat, more: nat)
    requires KeepsActivatable(t, a, u, b, cfg, files) && Able(t, a, cfg, files, failed) <= faults
    requires ok || more > 0 || !Activatable(u, b, cfg, files, path)
    ensures Able(t, a, cfg, files, if ok then failed else failed + [path]) <= faults + more
  {
    OneMoreAble(t, a, cfg, files, failed, path);
    hide Activatable, Able;
  }

  lemma GoesOn(t: Table, a: KState, u: Table, b: KState, u': Table, b': KState, cfg: Config, files: Files,
               paths: seq<string>, i: nat, failed: seq<string>, unbound: set<string>, also: set<string>,
               ok: bool, noLeak: bool, noLeakNow: bool, faults: nat, more: nat)
    requires i < |paths| && FilesOk(files)
    requires Going(t, a, u, b, cfg, files, paths, i, failed, unbound, noLeak, faults)
    requires Found(u, b, u', b', cfg, files, paths[i], ok, also, noLeakNow, more)
    ensures Going(t, a, u', b', cfg, files, paths, i + 1, if ok then failed else failed + [paths[i]], unbound + also,
                  noLeak && noLeakNow, faults + more)
  {
    var path := paths[i];
    assert paths[..i + 1] == paths[..i] + [path];
    StepIsScan(u, u', files, path, also);
    ScannedTwice(t, u, u', files, paths[..i], [path], unbound, also);
    OneMoreFailed(files, paths, failed, path, unbound, also, ok);
    PlacedNext(u, u', cfg, files, paths[..i], path, failed, also, ok);
    if noLeak && noLeakNow {
      AbleNext(t, a, u, b, cfg, files, failed, path, ok, faults, more);
    }
    hide Scanned, UnboundFailed, PlacedBut, FilesOk, Activatable, Step, Able, Placed, TakesPart;
  }

  // Without a bind mount that failed, SetLatest does not abort while the highest versions are latest.
  lemma AbortNeedsUnbound(t: Table, u: Table, s: KState, files: Files, loose: set<string>, more: set<string>, paths: seq<string>,
                          path: string, unbound: set<string>)
    requires Scanned(t, u, files, paths, unbound) && LatestIsMaxBut(t, files, loose) && AbortedAt(u, s, files, more, path)
    ensures NameOf(files, path) in loose + unbound
  {
    ScannedKeepsMax(t, u, files, paths, loose, unbound);
    hide Scanned;
    var p := files[path].manifest.name;
    if p !in loose + unbound {
      assert HasTop(EntriesOf(u, p), files);
      TopNeverAborts(u, s, files, more + {p}, files[path]);
    }
  }

  lemma MorePaths(t: Table, u: Table, files: Files, paths: seq<string>, i: nat, unbound: set<string>)
    requires i <= |paths| && Scanned(t, u, files, paths[..i], unbound)
    ensures Scanned(t, u, files, paths, unbound)
  {
    assert paths == paths[..i] + paths[i..];
    NothingScanned(u, files, paths[i..]);
    ScannedTwice(t, u, u, files, paths[..i], paths[i..], unbound, {});
    assert unbound + {} == unbound;
  }

  function PathsIn(listing: Option<seq<string>>): seq<string> {
    match listing case Some(paths) => paths case None => []
  }

  lemma GoingTells(t: Table, a: KState, u: Table, b: KState, cfg: Config, files: Files, paths: seq<string>, i: nat,
                   failed: seq<string>, unbound: set<string>, noLeak: bool, faults: nat)
    requires i <= |paths| && Going(t, a, u, b, cfg, files, paths, i, failed, unbound, noLeak, faults)
    ensures Scanned(t, u, files, paths, unbound) && UnboundFailed(files, paths, failed, unbound)
    ensures i == |paths| ==> PlacedBut(u, cfg, files, paths, failed)
    ensures noLeak ==> KeepsActivatable(t, a, u, b, cfg, files) && Able(t, a, cfg, files, failed) <= faults
  {
    MorePaths(t, u, files, paths, i, unbound);
    assert i == |paths| ==> paths[..i] == paths;
  }

  lemma GoingActive(t: Table, a: KState, u: Table, b: KState, cfg: Config, files: Files, paths: seq<string>, i: nat,
                    failed: seq<string>, unbound: set<string>, noLeak: bool, faults: nat, active: map<string, nat>)
    requires i <= |paths| && Going(t, a, u, b, cfg, files, paths, i, failed, unbound, noLeak, faults) && ActiveMapOf(t, files, active)
    ensures ActiveMapOf(u, files, active)
  {
    ScannedKeepsActiveMap(t, u, files, paths[..i], unbound, active);
  }

  // One turn of the loop.
  method ActivateNext(db: MountedApexDatabase, k: Kernel, cfg: Config, paths: seq<string>, i: nat, active: map<string, nat>, failed: seq<string>,
                      files: Files, ghost loose: set<string>, ghost unbound: set<string>, ghost t: Table, ghost s: KState,
                      ghost noLeak: bool, ghost faults: nat)
    returns (failed': seq<string>, aborted: bool, ghost unbound': set<string>)
    requires i < |paths| && FilesOk(files) && Coupled(db.mounted, k.s, files, loose + unbound) && ActiveMapOf(t, files, active)
    requires Going(t, s, db.mounted, k.s, cfg, files, paths, i, failed, unbound, noLeak, faults)
    modifies db, k`s, k`faults, k`leaks, k`inverted, k`passed
    ensures k.leaks >= old(k.leaks) && k.faults >= old(k.faults) && |unbound'| - |unbound| <= k.faults - old(k.faults)
    ensures aborted ==> AbortedAt(db.mounted, k.s, files, loose + unbound, paths[i]) && unbound' == unbound && failed' == failed
    ensures aborted ==> Scanned(t, db.mounted, files, paths, unbound) && UnboundFailed(files, paths, failed, unbound)
    ensures aborted && LatestIsMaxBut(t, files, loose) ==> NameOf(files, paths[i]) in loose + unbound
    ensures !aborted ==> Coupled(db.mounted, k.s, files, loose + unbound')
    ensures !aborted ==> Going(t, s, db.mounted, k.s, cfg, files, paths, i + 1, failed', unbound', noLeak && k.leaks == old(k.leaks),
                               faults + (k.faults - old(k.faults)))
    ensures Layered(old(db.mounted), old(k.s)) && k.leaks == old(k.leaks) ==>
              Layered(db.mounted, k.s) && k.inverted == old(k.inverted)
  {
    hide *;
    ghost var u, b := db.mounted, k.s;
    failed', unbound' := failed, unbound;
    GoingActive(t, s, u, b, cfg, files, paths, i, failed, unbound, noLeak, faults, active);
    var ok;
    ghost var also;
    ok, aborted, also := ActivateFound(db, k, cfg, paths[i], active, files, loose + unbound);
    if aborted {
      GoingTells(t, s, u, b, cfg, files, paths, i, failed, unbound, noLeak, faults);
      if LatestIsMaxBut(t, files, loose) {
        AbortNeedsUnbound(t, u, k.s, files, loose, loose + unbound, paths, paths[i], unbound);
      }
    } else {
      GoesOn(t, s, u, b, db.mounted, k.s, cfg, files, paths, i, failed, unbound, also, ok,
             noLeak, k.leaks == old(k.leaks), faults, k.faults - old(k.faults));
      failed' := if ok then failed else failed + [paths[i]];
      assert loose + (unbound + also) == loose + unbound + also;
      unbound' := unbound + also;
    }
  }

  method ScanFiles(db: MountedApexDatabase, k: Kernel, cfg: Config, paths: seq<string>, files: Files, ghost loose: set<string>)
    returns (failed: seq<string>, aborted: bool, ghost unbound: set<string>)
    requires FilesOk(files) && Coupled(db.mounted, k.s, files, loose)
    modifies db, k`s, k`faults, k`leaks, k`inverted, k`passed
    ensures k.leaks >= old(k.leaks) && k.faults >= old(k.faults) && |unbound| <= k.faults - old(k.faults)
    ensures aborted ==> AbortedAmong(db.mounted, k.s, files, loose + unbound, paths, LatestIsMaxBut(old(db.mounted), files, loose))
                        && Scanned(old(db.mounted), db.mounted, files, paths, unbound) && UnboundFailed(files, paths, failed, unbound)
    ensures !aborted ==> Coupled(db.mounted, k.s, files, loose + unbound)
    ensures !aborted ==> Going(old(db.mounted), old(k.s), db.mounted, k.s, cfg, files, paths, |paths|, failed, unbound,
                               k.leaks == old(k.leaks), k.faults - old(k.faults))
    ensures Layered(old(db.mounted), old(k.s)) && k.leaks == old(k.leaks) ==>
              Layered(db.mounted, k.s) && k.inverted == old(k.inverted)
  {
    hide *;
    ghost var t, s := db.mounted, k.s;
    assert loose + {} == loose;
    GoingBegins(t, s, cfg, files, paths);
    failed, aborted, unbound := [], false, {};
    var active := GetActivePackagesMap(db.mounted, files, loose, k.s);
    IsActiveMap(t, files, active);
    var i := 0;
    while i < |paths|
      invariant 0 <= i <= |paths| && k.leaks >= old(k.leaks) && k.faults >= old(k.faults)
      invariant |unbound| <= k.faults - old(k.faults)
      invariant Coupled(db.mounted, k.s, files, loose + unbound)
      invariant Going(t, s, db.mounted, k.s, cfg, files, paths, i, failed, unbound, k.leaks == old(k.leaks), k.faults - old(k.faults))
      invariant Layered(t, s) && k.leaks == old(k.leaks) ==> Layered(db.mounted, k.s) && k.inverted == old(k.inverted)
    {
      failed, aborted, unbound := ActivateNext(db, k, cfg, paths, i, active, failed, files, loose, unbound, t, s,
                                               k.leaks == old(k.leaks), k.faults - old(k.faults));
      if aborted {
        AbortFound(db.mounted, k.s, files, loose + unbound, paths, i, LatestIsMaxBut(t, files, loose));
        return;
      }
      i := i + 1;
    }
  }

  /** scanPackagesDirAndActivate, in whatever order the directory lists its files (None: it cannot be listed).
      It goes on after every failure.  unbound holds the packages whose bind mount failed.  Each file that takes part
      and is not reported as failed is placed; of the files that can be activated at most one fails for each fault,
      and none without. */
  method ScanPackagesDirAndActivate(db: MountedApexDatabase, k: Kernel, cfg: Config, listing: Option<seq<string>>,
                                    files: Files, ghost loose: set<string>)
    returns (ok: bool, failed: seq<string>, aborted: bool, ghost unbound: set<string>)
    requires FilesOk(files) && Coupled(db.mounted, k.s, files, loose)
    modifies db, k`s, k`faults, k`leaks, k`inverted, k`passed
    ensures k.leaks >= old(k.leaks) && k.faults >= old(k.faults) && |unbound| <= k.faults - old(k.faults)
    ensures ok <==> listing.Some? && failed == [] && !aborted
    ensures UnboundFailed(files, PathsIn(listing), failed, unbound)
    ensures !aborted ==> Coupled(db.mounted, k.s, files, loose + unbound)
    ensures aborted ==> AbortedAmong(db.mounted, k.s, files, loose + unbound, PathsIn(listing), LatestIsMaxBut(old(db.mounted), files, loose))
    ensures Scanned(old(db.mounted), db.mounted, files, PathsIn(listing), unbound)
    ensures !aborted ==> PlacedBut(db.mounted, cfg, files, PathsIn(listing), failed)
    ensures !aborted && LatestIsMaxBut(old(db.mounted), files, loose) ==>
              CoveredBut(db.mounted, cfg, files, PathsIn(listing), failed, loose + unbound)
    ensures !aborted && k.leaks == old(k.leaks) ==>
              KeepsActivatable(old(db.mounted), old(k.s), db.mounted, k.s, cfg, files)
              && Able(old(db.mounted), old(k.s), cfg, files, failed) <= k.faults - old(k.faults)
    ensures !aborted && k.leaks == old(k.leaks) && k.faults == old(k.faults) ==>
              forall path | path in failed :: !Activatable(old(db.mounted), old(k.s), cfg, files, path)
    ensures Layered(old(db.mounted), old(k.s)) && k.leaks == old(k.leaks) ==>
              Layered(db.mounted, k.s) && k.inverted == old(k.inverted)
  {
    hide *;
    ghost var t, s := db.mounted, k.s;
    assert loose + {} == loose;
    ListedPaths(listing);
    GoingBegins(t, s, cfg, files, PathsIn(listing));
    GoingTells(t, s, t, s, cfg, files, PathsIn(listing), 0, [], {}, true, 0);
    ok, failed, aborted, unbound := false, [], false, {};
    if listing.Some? {
      failed, aborted, unbound := ScanFiles(db, k, cfg, listing.value, files, loose);
      ok := failed == [] && !aborted;
    }
    if !aborted {
      if listing.Some? {
        GoingTells(t, s, db.mounted, k.s, cfg, files, PathsIn(listing), |PathsIn(listing)|, failed, unbound,
                   k.leaks == old(k.leaks), k.faults - old(k.faults));
      }
      if LatestIsMaxBut(t, files, loose) {
        ScannedKeepsMax(t, db.mounted, files, PathsIn(listing), loose, unbound);
        PlacedButIsCovered(db.mounted, cfg, files, PathsIn(listing), failed, loose + unbound);
      }
      if k.leaks == old(k.leaks) && k.faults == old(k.faults) {
        NoneAble(t, s, cfg, files, failed);
      }
    }
  }

  lemma ListedPaths(listing: Option<seq<string>>)
    ensures PathsIn(listing) == if listing.Some? then listing.value else []
  {
  }

  /** The scans of onStart */

  function AllPaths(listings: seq<Option<seq<string>>>): seq<string> {
    if listings == [] then [] else AllPaths(listings[..|listings| - 1]) + PathsIn(listings[|listings| - 1])
  }

  lemma AllPathsNext(listings: seq<Option<seq<string>>>, i: nat)
    requires i < |listings|
    ensures AllPaths(listings[..i + 1]) == AllPaths(listings[..i]) + PathsIn(listings[i])
  {
    assert listings[..i + 1][..i] == listings[..i];
  }

  lemma PlacedInBoth(t1: Table, t2: Table, cfg: Config, files: Files, paths: seq<string>, more: seq<string>,
                     failed: seq<string>, again: seq<string>, also: set<string>)
    requires PlacedBut(t1, cfg, files, paths, failed) && Scanned(t1, t2, files, more, also)
    requires PlacedBut(t2, cfg, files, more, again)
    ensures PlacedBut(t2, cfg, files, paths + more, failed + again)
  {
    ScannedKeepsPlaced(t1, t2, cfg, files, paths, more, also, failed);
    hide Scanned, Placed, TakesPart, EntriesOf;
  }

  // The single latest entry of each package found has the highest version found or mounted, except for
  // files that failed and packages that were not bound.
  ghost predicate HighestIsLatest(t: Table, cfg: Config, files: Files, paths: seq<string>, failed: seq<string>, unbound: set<string>) {
    forall path | path in paths && path !in failed && NameOf(files, path) !in unbound ::
      path in files
      && (TakesPart(cfg, files[path]) ==> HasHighest(EntriesOf(t, files[path].manifest.name), files, ApexVersion(files[path])))
  }

  ghost predicate HasHighest(m: Entries, files: Files, v: nat) {
    exists d :: d in m && m[d] && v <= VersionOf(files, d) && forall e | e in m :: VersionOf(files, e) <= VersionOf(files, d) && (m[e] ==> e == d)
  }

  lemma CoveredIsHighest(t: Table, cfg: Config, files: Files, paths: seq<string>, failed: seq<string>, unbound: set<string>)
    requires EachAtMostOneLatest(t) && CoveredBut(t, cfg, files, paths, failed, unbound)
    ensures HighestIsLatest(t, cfg, files, paths, failed, unbound)
  {
    forall path | path in paths && path !in failed && NameOf(files, path) !in unbound && path in files && TakesPart(cfg, files[path])
      ensures HasHighest(EntriesOf(t, files[path].manifest.name), files, ApexVersion(files[path]))
    {
      assert Covered(t, files, path);
      var m := EntriesOf(t, files[path].manifest.name);
      var d :| IsTop(m, files, d) && ApexVersion(files[path]) <= VersionOf(files, d);
      assert AtMostOneLatest(m);
      assert d in m && m[d] && ApexVersion(files[path]) <= VersionOf(files, d);
    }
    hide TakesPart;
  }

  ghost predicate AllListed(listings: seq<Option<seq<string>>>) {
    forall i | 0 <= i < |listings| :: listings[i].Some?
  }

  // What the scans of the first i directories leave.
  ghost predicate Across(t: Table, a: KState, u: Table, b: KState, cfg: Config, files: Files, loose: set<string>,
                         listings: seq<Option<seq<string>>>, i: nat, failed: seq<string>, unbound: set<string>, noLeak: bool, faults: nat)
    requires i <= |listings|
  {
    && Scanned(t, u, files, AllPaths(listings[..i]), unbound) && UnboundFailed(files, AllPaths(listings[..i]), failed, unbound)
    && LatestIsMaxBut(u, files, loose + unbound) && PlacedBut(u, cfg, files, AllPaths(listings[..i]), failed)
    && (noLeak ==> KeepsActivatable(t, a, u, b, cfg, files) && Able(t, a, cfg, files, failed) <= faults)
  }

  lemma FailedInBoth(files: Files, paths: seq<string>, more: seq<string>, failed: seq<string>, again: seq<string>, unbound: set<string>, also: set<string>)
    requires UnboundFailed(files, paths, failed, unbound) && UnboundFailed(files, more, again, also)
    ensures UnboundFailed(files, paths + more, failed + again, unbound + also)
  {
    forall p | p in unbound + also
      ensures exists path :: path in failed + again && NameOf(files, path) == p
    {
      if p in unbound {
        var path :| path in failed && NameOf(files, path) == p;
        assert path in failed + again;
      } else {
        var path :| path in again && NameOf(files, path) == p;
        assert path in failed + again;
      }
    }
  }

  lemma AcrossNext(t: Table, a: KState, u: Table, b: KState, v: Table, c: KState, cfg: Config, files: Files, loose: set<string>,
                   listings: seq<Option<seq<string>>>, i: nat, failed: seq<string>, again: seq<string>,
                   unbound: set<string>, also: set<string>, noLeak: bool, noLeakNow: bool, faults: nat, more: nat)
    requires i < |listings| && Across(t, a, u, b, cfg, files, loose, listings, i, failed, unbound, noLeak, faults)
    requires Scanned(u, v, files, PathsIn(listings[i]), also) && UnboundFailed(files, PathsIn(listings[i]), again, also)
    requires PlacedBut(v, cfg, files, PathsIn(listings[i]), again)
    requires noLeakNow ==> KeepsActivatable(u, b, v, c, cfg, files) && Able(u, b, cfg, files, again) <= more
    ensures Across(t, a, v, c, cfg, files, loose, listings, i + 1, failed + again, unbound + also, noLeak && noLeakNow, faults + more)
  {
    var paths, found := AllPaths(listings[..i]), PathsIn(listings[i]);
    AllPathsNext(listings, i);
    ScannedTwice(t, u, v, files, paths, found, unbound, also);
    ScannedKeepsMax(u, v, files, found, loose + unbound, also);
    assert loose + unbound + also == loose + (unbound + also);
    FailedInBoth(files, paths, found, failed, again, unbound, also);
    PlacedInBoth(u, v, cfg, files, paths, found, failed, again, also);
    if noLeak && noLeakNow {
      AbleLater(t, a, u, b, cfg, files, failed, again);
    }
    hide Scanned, LatestIsMaxBut, PlacedBut, UnboundFailed, Activatable, Able, AllPaths, PathsIn;
  }

  lemma AcrossNothing(t: Table, s: KState, cfg: Config, files: Files, loose: set<string>, listings: seq<Option<seq<string>>>)
    requires LatestIsMaxBut(t, files, loose)
    ensures Across(t, s, t, s, cfg, files, loose, listings, 0, [], {}, true, 0) && loose + {} == loose
  {
    assert loose + {} == loose && AllPaths(listings[..0]) == [];
    NothingScanned(t, files, []);
  }

  lemma AcrossMax(t: Table, a: KState, u: Table, b: KState, cfg: Config, files: Files, loose: set<string>,
                  listings: seq<Option<seq<string>>>, i: nat, failed: seq<string>, unbound: set<string>, noLeak: bool, faults: nat)
    requires i <= |listings| && Across(t, a, u, b, cfg, files, loose, listings, i, failed, unbound, noLeak, faults)
    ensures LatestIsMaxBut(u, files, loose + unbound)
  {
  }

  // One directory after the others.
  method ActivateDirectory(db: MountedApexDatabase, k: Kernel, cfg: Config, listings: seq<Option<seq<string>>>, i: nat, files: Files,
                           ghost loose: set<string>, ghost unbound: set<string>, ghost failed: seq<string>, ghost t: Table, ghost s: KState,
                           ghost noLeak: bool, ghost faults: nat)
    returns (ok: bool, aborted: bool, ghost failed': seq<string>, ghost unbound': set<string>)
    requires i < |listings| && FilesOk(files) && Coupled(db.mounted, k.s, files, loose + unbound)
    requires Across(t, s, db.mounted, k.s, cfg, files, loose, listings, i, failed, unbound, noLeak, faults)
    modifies db, k`s, k`faults, k`leaks, k`inverted, k`passed
    ensures k.leaks >= old(k.leaks) && k.faults >= old(k.faults) && |unbound'| - |unbound| <= k.faults - old(k.faults)
    ensures aborted ==> AbortedAmong(db.mounted, k.s, files, loose + unbound', PathsIn(listings[i]), true)
    ensures !aborted ==> Coupled(db.mounted, k.s, files, loose + unbound')
    ensures !aborted ==> Across(t, s, db.mounted, k.s, cfg, files, loose, listings, i + 1, failed', unbound',
                                noLeak && k.leaks == old(k.leaks), faults + (k.faults - old(k.faults)))
    ensures !aborted ==> failed <= failed' && (ok <==> listings[i].Some? && failed' == failed)
    ensures Layered(old(db.mounted), old(k.s)) && k.leaks == old(k.leaks) ==>
              Layered(db.mounted, k.s) && k.inverted == old(k.inverted)
  {
    hide *;
    ghost var t1, b := db.mounted, k.s;
    AcrossMax(t, s, t1, b, cfg, files, loose, listings, i, failed, unbound, noLeak, faults);
    var again;
    ghost var also;
    ok, again, aborted, also := ScanPackagesDirAndActivate(db, k, cfg, listings[i], files, loose + unbound);
    unbound' := Union(loose, unbound, also);
    failed' := failed + again;
    assert failed' == failed <==> |again| == 0;
    if !aborted {
      AcrossNext(t, s, t1, b, db.mounted, k.s, cfg, files, loose, listings, i, failed, again, unbound, also,
                 noLeak, k.leaks == old(k.leaks), faults, k.faults - old(k.faults));
    }
  }

  lemma {:induction false} ListedInOne(listings: seq<Option<seq<string>>>, i: nat, path: string)
    requires i < |listings| && path in PathsIn(listings[i])
    ensures path in AllPaths(listings)
  {
    var n := |listings| - 1;
    if i < n {
      assert listings[..n][i] == listings[i];
      ListedInOne(listings[..n], i, path);
    }
  }

  lemma AbortedInOne(t: Table, s: KState, files: Files, loose: set<string>, listings: seq<Option<seq<string>>>, i: nat)
    requires i < |listings| && AbortedAmong(t, s, files, loose, PathsIn(listings[i]), true)
    ensures AbortedAmong(t, s, files, loose, AllPaths(listings), true)
  {
    var path :| path in PathsIn(listings[i]) && AbortedAt(t, s, files, loose, path) && NameOf(files, path) in loose;
    ListedInOne(listings, i, path);
  }

  /** onStart's scans of the active directory and then the builtin ones, in any listing order.  A failed
      scan does not stop the next.  SetLatest aborts only after a bind mount failed; else the highest version
      of each package found becomes the latest, but for files that failed and packages not bound.
      Of the files that can be activated at most one fails for each fault, and none without. */
  method ActivateAll(db: MountedApexDatabase, k: Kernel, cfg: Config, listings: seq<Option<seq<string>>>, files: Files, ghost loose: set<string>)
    returns (ok: bool, aborted: bool, ghost failed: seq<string>, ghost unbound: set<string>)
    requires FilesOk(files) && Coupled(db.mounted, k.s, files, loose) && LatestIsMaxBut(db.mounted, files, loose)
    modifies db, k`s, k`faults, k`leaks, k`inverted, k`passed
    ensures k.leaks >= old(k.leaks) && k.faults >= old(k.faults) && |unbound| <= k.faults - old(k.faults)
    ensures aborted ==> AbortedAmong(db.mounted, k.s, files, loose + unbound, AllPaths(listings), true)
    ensures !aborted ==> Coupled(db.mounted, k.s, files, loose + unbound) && LatestIsMaxBut(db.mounted, files, loose + unbound)
    ensures !aborted ==> Scanned(old(db.mounted), db.mounted, files, AllPaths(listings), unbound)
    ensures !aborted ==> PlacedBut(db.mounted, cfg, files, AllPaths(listings), failed)
    ensures !aborted ==> HighestIsLatest(db.mounted, cfg, files, AllPaths(listings), failed, loose + unbound)
    ensures (ok <==> !aborted && failed == [] && AllListed(listings)) && (ok ==> unbound == {})
    ensures !aborted ==> UnboundFailed(files, AllPaths(listings), failed, unbound)
    ensures !aborted && k.leaks == old(k.leaks) ==> Able(old(db.mounted), old(k.s), cfg, files, failed) <= k.faults - old(k.faults)
    ensures !aborted && k.leaks == old(k.leaks) && k.faults == old(k.faults) ==>
              forall path | path in failed :: !Activatable(old(db.mounted), old(k.s), cfg, files, path)
    ensures Layered(old(db.mounted), old(k.s)) && k.leaks == old(k.leaks) ==>
              Layered(db.mounted, k.s) && k.inverted == old(k.inverted)
  {
    hide *;
    ghost var t, s := db.mounted, k.s;
    AcrossNothing(t, s, cfg, files, loose, listings);
    ok, aborted, failed, unbound := true, false, [], {};
    var i := 0;
    while i < |listings|
      invariant 0 <= i <= |listings| && k.leaks >= old(k.leaks) && k.faults >= old(k.faults)
      invariant |unbound| <= k.faults - old(k.faults)
      invariant ok <==> failed == [] && forall j | 0 <= j < i :: listings[j].Some?
      invariant Coupled(db.mounted, k.s, files, loose + unbound)
      invariant Across(t, s, db.mounted, k.s, cfg, files, loose, listings, i, failed, unbound, k.leaks == old(k.leaks), k.faults - old(k.faults))
      invariant Layered(t, s) && k.leaks == old(k.leaks) ==> Layered(db.mounted, k.s) && k.inverted == old(k.inverted)
    {
      var scanned;
      scanned, aborted, failed, unbound := ActivateDirectory(db, k, cfg, listings, i, files, loose, unbound, failed, t, s,
                                                             k.leaks == old(k.leaks), k.faults - old(k.faults));
      if aborted {
        AbortedInOne(db.mounted, k.s, files, loose + unbound, listings, i);
        ok := false;
        return;
      }
      ok := ok && scanned;
      i := i + 1;
    }
    CoupledTable(db.mounted, k.s, files, loose + unbound);
    AcrossTells(t, s, db.mounted, k.s, cfg, files, loose, listings, failed, unbound, k.leaks == old(k.leaks), k.faults - old(k.faults));
  }

  lemma AcrossTells(t: Table, a: KState, u: Table, b: KState, cfg: Config, files: Files, loose: set<string>,
                    listings: seq<Option<seq<string>>>, failed: seq<string>, unbound: set<string>, noLeak: bool, faults: nat)
    requires Across(t, a, u, b, cfg, files, loose, listings, |listings|, failed, unbound, noLeak, faults) && EachAtMostOneLatest(u)
    ensures LatestIsMaxBut(u, files, loose + unbound) && Scanned(t, u, files, AllPaths(listings), unbound)
    ensures PlacedBut(u, cfg, files, AllPaths(listings), failed) && UnboundFailed(files, AllPaths(listings), failed, unbound)
    ensures HighestIsLatest(u, cfg, files, AllPaths(listings), failed, loose + unbound)
    ensures noLeak ==> Able(t, a, cfg, files, failed) <= faults
    ensures noLeak && faults == 0 ==> forall path | path in failed :: !Activatable(t, a, cfg, files, path)
    ensures AllListed(listings) <==> forall i | 0 <= i < |listings| :: listings[i].Some?
    ensures failed == [] ==> unbound == {}
  {
    assert listings[..|listings|] == listings;
    PlacedButIsCovered(u, cfg, files, AllPaths(listings), failed, loose + unbound);
    CoveredIsHighest(u, cfg, files, AllPaths(listings), failed, loose + unbound);
    if noLeak && faults == 0 {
      NoneAble(t, a, cfg, files, failed);
    }
    hide Scanned, LatestIsMaxBut, PlacedBut, UnboundFailed, Activatable, Able, AllPaths, HighestIsLatest;
  }

  lemma CoupledTable(t: Table, s: KState, files: Files, loose: set<string>)
    requires Coupled(t, s, files, loose)
    ensures EachAtMostOneLatest(t)
  {
  }
}
