// Running the hooks of packages before or after installation (apexd_prepostinstall.cpp).
module PrePostInstall {
  import opened Names
  import opened Database
  import opened KernelModel
  import opened Mount
  import opened Coupling
  import opened Activation

  /** Tables that differ by what was mounted for the hooks */

  // The entries of mounted[i..], each with the package it is filed under.
  ghost function Extra(mounted: seq<Apex>, ds: seq<MountedApexData>, i: nat): set<(string, MountedApexData)> {
    set j | i <= j < |mounted| && j < |ds| :: (mounted[j].manifest.name, ds[j])
  }

  ghost predicate Plus(t: Table, t': Table, extra: set<(string, MountedApexData)>) {
    && Pairs(t') == Pairs(t) + extra && Pairs(t) !! extra
    && (forall p, d :: Latest(t', p, d) <==> Latest(t, p, d))
  }

  // The same entries with the same flags, package by package.
  ghost predicate SameEntries(t: Table, t': Table) {
    forall p :: EntriesOf(t, p) == EntriesOf(t', p)
  }

  lemma HasIsPair(t: Table)
    ensures forall p, d :: Has(t, p, d) <==> (p, d) in Pairs(t)
  {
  }

  lemma PlusNothing(t: Table, t': Table)
    ensures Plus(t, t', {}) <==> SameEntries(t, t')
  {
    HasIsPair(t);
    HasIsPair(t');
    if Plus(t, t', {}) {
      forall p
        ensures EntriesOf(t, p) == EntriesOf(t', p)
      {
        assert forall d :: d in EntriesOf(t, p) <==> Has(t, p, d);
        assert forall d :: d in EntriesOf(t', p) <==> Has(t', p, d);
        assert forall d | Has(t, p, d) :: t[p][d] <==> Latest(t, p, d);
        assert forall d | Has(t', p, d) :: t'[p][d] <==> Latest(t', p, d);
      }
    }
    if SameEntries(t, t') {
      forall p, d
        ensures (Has(t, p, d) <==> Has(t', p, d)) && (Latest(t', p, d) <==> Latest(t, p, d))
      {
        assert EntriesOf(t, p) == EntriesOf(t', p);
        assert Has(t, p, d) <==> d in EntriesOf(t, p);
        assert Has(t', p, d) <==> d in EntriesOf(t', p);
      }
      assert forall x :: x in Pairs(t) <==> Has(t, x.0, x.1);
      assert forall x :: x in Pairs(t') <==> Has(t', x.0, x.1);
    }
  }

  lemma PlusOneMore(t: Table, t1: Table, t2: Table, mounted: seq<Apex>, ds: seq<MountedApexData>, apex: Apex, d: MountedApexData)
    requires |mounted| == |ds| && Plus(t, t1, Extra(mounted, ds, 0)) && Added(t1, t2, apex, d)
    ensures Plus(t, t2, Extra(mounted + [apex], ds + [d], 0))
    ensures (apex.manifest.name, d) !in Extra(mounted, ds, 0)
  {
    var x := (apex.manifest.name, d);
    HasIsPair(t1);
    EntriesWith(t1, apex.manifest.name, d);
    HasIsPair(t2);
    assert Pairs(t2) == Pairs(t1) + {x};
    ExtraGrows(mounted, ds, apex, d);
    hide Extra, Pairs, Has, WithEntry;
  }

  lemma ExtraGrows(mounted: seq<Apex>, ds: seq<MountedApexData>, apex: Apex, d: MountedApexData)
    requires |mounted| == |ds|
    ensures Extra(mounted + [apex], ds + [d], 0) == Extra(mounted, ds, 0) + {(apex.manifest.name, d)}
  {
    var m, e := mounted + [apex], ds + [d];
    forall x | x in Extra(mounted, ds, 0)
      ensures x in Extra(m, e, 0)
    {
      var j :| 0 <= j < |ds| && x == (mounted[j].manifest.name, ds[j]);
      assert x == (m[j].manifest.name, e[j]);
    }
    assert (m[|mounted|].manifest.name, e[|ds|]) == (apex.manifest.name, d);
    forall x | x in Extra(m, e, 0)
      ensures x in Extra(mounted, ds, 0) + {(apex.manifest.name, d)}
    {
      var j :| 0 <= j < |e| && x == (m[j].manifest.name, e[j]);
      assert j < |ds| ==> x == (mounted[j].manifest.name, ds[j]);
    }
  }

  // No entry was mounted twice.
  ghost predicate AllDifferent(mounted: seq<Apex>, ds: seq<MountedApexData>) {
    |mounted| == |ds| && forall i | 0 <= i < |ds| :: (mounted[i].manifest.name, ds[i]) !in Extra(mounted, ds, i + 1)
  }

  lemma ExtraShrinks(mounted: seq<Apex>, ds: seq<MountedApexData>, i: nat)
    requires i < |mounted| == |ds|
    ensures Extra(mounted, ds, i) == Extra(mounted, ds, i + 1) + {(mounted[i].manifest.name, ds[i])}
  {
  }

  lemma AllDifferentGrows(mounted: seq<Apex>, ds: seq<MountedApexData>, apex: Apex, d: MountedApexData)
    requires AllDifferent(mounted, ds) && (apex.manifest.name, d) !in Extra(mounted, ds, 0)
    ensures AllDifferent(mounted + [apex], ds + [d])
  {
  }

  lemma PlusOneLess(t: Table, t1: Table, mounted: seq<Apex>, ds: seq<MountedApexData>, i: nat)
    requires AllDifferent(mounted, ds) && i < |ds| && Plus(t, t1, Extra(mounted, ds, i))
    ensures var p := mounted[i].manifest.name;
      && Has(t1, p, ds[i]) && !Latest(t1, p, ds[i])
      && Plus(t, WithoutEntry(t1, p, ds[i]), Extra(mounted, ds, i + 1))
  {
    var x := (mounted[i].manifest.name, ds[i]);
    ExtraShrinks(mounted, ds, i);
    HasIsPair(t1);
    HasIsPair(t);
    EntriesLeft(t1, x.0, x.1);
    HasIsPair(WithoutEntry(t1, x.0, x.1));
    hide Extra, Pairs, Has, WithoutEntry;
    assert x in Pairs(t1) && x !in Pairs(t);
    assert Pairs(WithoutEntry(t1, x.0, x.1)) == Pairs(t1) - {x};
  }

  /** The kernel meanwhile */

  function MountPoints(extra: set<(string, MountedApexData)>): set<string> {
    set x | x in extra :: x.1.mountPoint
  }

  function LoopNames(extra: set<(string, MountedApexData)>): set<string> {
    set x | x in extra && x.1.loopName != "" :: x.1.loopName
  }

  // Apart from what these entries hold, b has the mounts and loop devices of a.
  ghost predicate Over(a: KState, b: KState, extra: set<(string, MountedApexData)>) {
    b.mounts - MountPoints(extra) == a.mounts && b.loops - LoopNames(extra) == a.loops
  }

  lemma OverNothing(a: KState, b: KState)
    ensures Over(a, b, {}) <==> b.mounts == a.mounts && b.loops == a.loops
  {
    assert b.mounts - {} == b.mounts && b.loops - {} == b.loops;
  }

  lemma NamesWith(extra: set<(string, MountedApexData)>, x: (string, MountedApexData))
    ensures MountPoints(extra + {x}) == MountPoints(extra) + {x.1.mountPoint}
    ensures LoopNames(extra + {x}) == LoopNames(extra) + (if x.1.loopName == "" then {} else {x.1.loopName})
  {
  }

  lemma OverOneMore(a: KState, b: KState, c: KState, cfg: Config, apex: Apex, extra: set<(string, MountedApexData)>,
                    x: (string, MountedApexData))
    requires Over(a, b, extra) && AddedFields(b, c, cfg, apex, PackageId(apex.manifest), x.1)
    requires if apex.flattened then x.1.loopName == "" else x.1.loopName != "" && x.1.loopName !in b.loops
    ensures Over(a, c, extra + {x})
  {
    NamesWith(extra, x);
    hide MountPoints, LoopNames;
    var m, l := MountPoints(extra), LoopNames(extra);
    assert c.mounts - (m + {x.1.mountPoint}) == b.mounts - m;
    assert c.loops - (l + if x.1.loopName == "" then {} else {x.1.loopName}) == b.loops - l;
  }

  lemma OverOneLess(a: KState, b: KState, extra: set<(string, MountedApexData)>, x: (string, MountedApexData))
    requires Over(a, b, extra + {x}) && Backed(b, x.1)
    ensures Over(a, Unmounted(b, x.1), extra)
  {
    NamesWith(extra, x);
    UnmountTakesFields(b, x.1);
    var c, m, l := Unmounted(b, x.1), MountPoints(extra), LoopNames(extra);
    hide MountPoints, LoopNames, Unmounted;
    assert c.mounts - m == b.mounts - (m + {x.1.mountPoint});
    assert c.loops - l == b.loops - (l + if x.1.loopName == "" then {} else {x.1.loopName});
  }

  /** Staging the hooks */

  ghost predicate InTable(t: Table, apex: Apex) {
    exists d :: Has(t, apex.manifest.name, d) && d.fullPath == apex.path
  }

  method IsMounted(db: MountedApexDatabase, apex: Apex) returns (r: bool)
    ensures r <==> InTable(db.mounted, apex)
  {
    var found, latest := FindEntry(db, apex.manifest.name, apex.path);
    r := found.Some?;
  }

  // The guard of StageFnInstall.
  method TearDown(db: MountedApexDatabase, k: Kernel, mounted: seq<Apex>, dirs: seq<string>,
                  ghost ds: seq<MountedApexData>, ghost t: Table, ghost s: KState, ghost files: Files, ghost loose: set<string>)
    requires FilesOk(files) && Coupled(db.mounted, k.s, files, loose)
    requires AllDifferent(mounted, ds) && forall i | 0 <= i < |mounted| :: InFiles(files, mounted[i]) && ds[i].fullPath == mounted[i].path
    requires Plus(t, db.mounted, Extra(mounted, ds, 0))
    modifies db, k`s, k`leaks, k`inverted
    ensures Coupled(db.mounted, k.s, files, loose) && k.leaks >= old(k.leaks)
    ensures k.leaks == old(k.leaks) ==> SameEntries(t, db.mounted)
    ensures k.leaks == old(k.leaks) && Over(s, old(k.s), Extra(mounted, ds, 0)) ==> Over(s, k.s, {})
    ensures k.leaks == old(k.leaks) ==>
              forall dir | dir in k.s.dirs :: dir in old(k.s).dirs && (dir !in dirs || dir in k.s.mounts)
    ensures Layered(old(db.mounted), old(k.s)) && k.leaks == old(k.leaks) ==>
              Layered(db.mounted, k.s) && k.inverted == old(k.inverted)
  {
    hide *;
    ghost var t0, s0 := db.mounted, k.s;
    SameLengths(mounted, ds);
    var i := 0;
    while i < |mounted|
      invariant 0 <= i <= |mounted| == |ds| && k.leaks >= old(k.leaks)
      invariant Coupled(db.mounted, k.s, files, loose)
      invariant k.leaks == old(k.leaks) ==> Plus(t, db.mounted, Extra(mounted, ds, i))
      invariant k.leaks == old(k.leaks) && Over(s, s0, Extra(mounted, ds, 0)) ==> Over(s, k.s, Extra(mounted, ds, i))
      invariant k.leaks == old(k.leaks) ==> k.s.dirs <= s0.dirs
      invariant Layered(t0, s0) && k.leaks == old(k.leaks) ==> Layered(db.mounted, k.s) && k.inverted == old(k.inverted)
    {
      ghost var t1, s1, leaks := db.mounted, k.s, k.leaks;
      if leaks == old(k.leaks) {
        PlusOneLess(t, t1, mounted, ds, i);
      }
      FileThere(files, mounted[i]);
      var ok := UnmountPackage(db, k, mounted[i], false, files, loose);
      if k.leaks == old(k.leaks) {
        NotLatestIsRemoved(t1, s1, db.mounted, k.s, mounted[i].manifest.name, ds[i], ok, mounted[i].manifest.name !in loose);
        ExtraShrinks(mounted, ds, i);
        if Over(s, s1, Extra(mounted, ds, i)) {
          EntryBacked(t1, s1, files, loose, mounted[i].manifest.name, ds[i]);
          OverOneLess(s, s1, Extra(mounted, ds, i + 1), (mounted[i].manifest.name, ds[i]));
        }
      }
      i := i + 1;
    }
    if k.leaks == old(k.leaks) {
      NothingExtra(mounted, ds);
      PlusNothing(t, db.mounted);
    }
    ghost var s1 := k.s;
    RemoveDirs(db, k, dirs, files, loose);
    SameOver(s1, k.s);
  }

  lemma SameLengths(mounted: seq<Apex>, ds: seq<MountedApexData>)
    requires AllDifferent(mounted, ds)
    ensures |mounted| == |ds|
  {
  }

  lemma FileThere(files: Files, apex: Apex)
    requires InFiles(files, apex)
    ensures apex.path in files && files[apex.path] == apex
  {
  }

  lemma SameOver(b: KState, c: KState)
    requires c == b.(dirs := c.dirs)
    ensures forall a, extra :: Over(a, b, extra) <==> Over(a, c, extra)
  {
  }

  predicate InFiles(files: Files, apex: Apex) {
    apex.path in files && files[apex.path] == apex
  }

  lemma NotLatestIsRemoved(t: Table, a: KState, t': Table, b: KState, p: string, d: MountedApexData, ok: bool, bound: bool)
    requires UnmountOutcome(t, a, t', b, p, d, false, ok, true, bound) && !Latest(t, p, d)
    ensures t' == WithoutEntry(t, p, d) && b == Unmounted(a, d) && b.dirs <= a.dirs
  {
  }

  lemma EntryBacked(t: Table, s: KState, files: Files, loose: set<string>, p: string, d: MountedApexData)
    requires Coupled(t, s, files, loose) && Has(t, p, d)
    ensures Backed(s, d)
  {
  }

  lemma NothingExtra(mounted: seq<Apex>, ds: seq<MountedApexData>)
    requires |mounted| == |ds|
    ensures Extra(mounted, ds, |mounted|) == {}
  {
  }

  method RemoveDirs(db: MountedApexDatabase, k: Kernel, dirs: seq<string>, ghost files: Files, ghost loose: set<string>)
    requires Coupled(db.mounted, k.s, files, loose)
    modifies k`s, k`leaks
    ensures Coupled(db.mounted, k.s, files, loose) && k.leaks >= old(k.leaks) && k.s == old(k.s).(dirs := k.s.dirs)
    ensures Layered(db.mounted, old(k.s)) ==> Layered(db.mounted, k.s)
    ensures k.s.dirs <= old(k.s).dirs
    ensures k.leaks == old(k.leaks) ==> forall dir | dir in dirs :: dir !in k.s.dirs || dir in k.s.mounts
  {
    hide Coupled, Layered;
    ghost var s0 := k.s;
    var i := 0;
    while i < |dirs|
      invariant 0 <= i <= |dirs| && k.leaks >= old(k.leaks) && k.s == s0.(dirs := k.s.dirs)
      invariant Coupled(db.mounted, k.s, files, loose)
      invariant Layered(db.mounted, s0) ==> Layered(db.mounted, k.s)
      invariant k.s.dirs <= s0.dirs
      invariant k.leaks == old(k.leaks) ==> forall j | 0 <= j < i :: dirs[j] !in k.s.dirs || dirs[j] in k.s.mounts
    {
      DirsAreApart(db.mounted, k.s, files, loose, dirs[i]);
      var r := k.Rmdir(dirs[i]);
      i := i + 1;
    }
  }

  lemma DirsAreApart(t: Table, s: KState, files: Files, loose: set<string>, dir: string)
    ensures forall s' | s' == WithDir(s, dir) || s' == WithoutDir(s, dir) ::
              (Coupled(t, s', files, loose) <==> Coupled(t, s, files, loose)) && (Layered(t, s') <==> Layered(t, s))
  {
    forall s' | s' == WithDir(s, dir) || s' == WithoutDir(s, dir)
      ensures (Coupled(t, s', files, loose) <==> Coupled(t, s, files, loose)) && (Layered(t, s') <==> Layered(t, s))
    {
      assert s' == s.(dirs := s'.dirs);
      assert forall d :: Backed(s', d) <==> Backed(s, d);
      assert forall p, d :: Bound(s', p, d) <==> Bound(s, p, d);
      hide Backed, Bound;
    }
  }

  // One turn of the loop of StageFnInstall: mount the package unless it is, and make its active point.
  method Prepare(db: MountedApexDatabase, k: Kernel, cfg: Config, apex: Apex, ghost files: Files, ghost loose: set<string>)
    returns (ok: bool, aborted: bool, mountedNow: bool, made: bool, ghost d: MountedApexData)
    requires FilesOk(files) && Coupled(db.mounted, k.s, files, loose) && InFiles(files, apex)
    modifies db, k`s, k`faults, k`leaks, k`inverted, k`passed
    ensures Coupled(db.mounted, k.s, files, loose) && k.leaks >= old(k.leaks) && k.faults >= old(k.faults) && !aborted
    ensures if mountedNow then Added(old(db.mounted), db.mounted, apex, d) else db.mounted == old(db.mounted)
    ensures ok ==> InTable(db.mounted, apex) && HasPoint(k.s, ActiveMountPoint(apex.manifest.name))
    ensures forall other | InTable(old(db.mounted), other) :: InTable(db.mounted, other)
    ensures KeepsPoints(old(k.s), k.s)
    ensures NoNewPoints(old(k.s), k.s, if made then [ActiveMountPoint(apex.manifest.name)] else [])
    ensures made ==> ok
    ensures !ok && k.faults == old(k.faults) && k.leaks == old(k.leaks) ==>
              !InTable(old(db.mounted), apex) && !Mountable(old(k.s), cfg, apex, PackageMountPoint(apex.manifest))
    ensures k.leaks == old(k.leaks) ==> MountsOnly(old(k.s), k.s, PackageMountPoint(apex.manifest))
    ensures k.leaks == old(k.leaks) ==>
              if mountedNow then forall a, extra | Over(a, old(k.s), extra) :: Over(a, k.s, extra + {(apex.manifest.name, d)})
              else forall a, extra | Over(a, old(k.s), extra) :: Over(a, k.s, extra)
    ensures Layered(old(db.mounted), old(k.s)) && k.leaks == old(k.leaks) ==>
              Layered(db.mounted, k.s) && k.inverted == old(k.inverted)
  {
    ghost var t, s := db.mounted, k.s;
    hide Coupled, Layered, Added, Over, InTable, Mountable, KeepsPoints, NoNewPoints, MountsOnly, PackageMountPoint, FilesOk, InFiles;
    made := false;
    ok, aborted, mountedNow, d := MountUnlessThere(db, k, cfg, apex, files, loose);
    if !ok {
      return;
    }
    var target := ActiveMountPoint(apex.manifest.name);
    var exists_ := target in k.s.dirs || target in k.s.plain;
    DirsAreApart(db.mounted, k.s, files, loose, target);
    ghost var s1 := k.s;
    made := k.Mkdir(target);
    SameOver(s1, k.s);
    PointMade(s, s1, k.s, target, made);
    ok := made || exists_;
  }

  method MountUnlessThere(db: MountedApexDatabase, k: Kernel, cfg: Config, apex: Apex, ghost files: Files, ghost loose: set<string>)
    returns (ok: bool, aborted: bool, mountedNow: bool, ghost d: MountedApexData)
    requires FilesOk(files) && Coupled(db.mounted, k.s, files, loose) && InFiles(files, apex)
    modifies db, k`s, k`faults, k`leaks, k`inverted, k`passed
    ensures Coupled(db.mounted, k.s, files, loose) && k.leaks >= old(k.leaks) && k.faults >= old(k.faults) && !aborted
    ensures if mountedNow then Added(old(db.mounted), db.mounted, apex, d) else db.mounted == old(db.mounted)
    ensures if ok then InTable(db.mounted, apex) else !mountedNow && !InTable(old(db.mounted), apex)
    ensures forall other | InTable(old(db.mounted), other) :: InTable(db.mounted, other)
    ensures KeepsPoints(old(k.s), k.s) && NoNewPoints(old(k.s), k.s, [])
    ensures !ok && k.faults == old(k.faults) && k.leaks == old(k.leaks) ==>
              !Mountable(old(k.s), cfg, apex, PackageMountPoint(apex.manifest))
    ensures k.leaks == old(k.leaks) ==> MountsOnly(old(k.s), k.s, PackageMountPoint(apex.manifest))
    ensures k.leaks == old(k.leaks) ==>
              if mountedNow then forall a, extra | Over(a, old(k.s), extra) :: Over(a, k.s, extra + {(apex.manifest.name, d)})
              else forall a, extra | Over(a, old(k.s), extra) :: Over(a, k.s, extra)
    ensures Layered(old(db.mounted), old(k.s)) && k.leaks == old(k.leaks) ==>
              Layered(db.mounted, k.s) && k.inverted == old(k.inverted)
  {
    ghost var t, s := db.mounted, k.s;
    aborted, mountedNow := false, false;
    d := MountedApexData("", "", "", "");
    hide Coupled, Layered, WithEntry, Over, AddedFields, Cleared, InTable, Mountable, KeepsPoints, NoNewPoints, MountsOnly, PackageMountPoint, Extends;
    MountsNothing(s, PackageMountPoint(apex.manifest));
    ok := IsMounted(db, apex);
    if !ok {
      ok, aborted, d := MountPackage(db, k, cfg, apex, files, loose);
      mountedNow := ok;
      if k.leaks == old(k.leaks) {
        MountedOver(s, k.s, cfg, apex, d, ok);
      }
      if ok {
        AddedIsThere(t, db.mounted, apex, d);
      }
    }
  }

  // Nothing new is in the way of a mount but a mount on this mount point.
  ghost predicate MountsOnly(a: KState, b: KState, mountPoint: string) {
    b.mounts.Keys <= a.mounts.Keys + {mountPoint} && b.plain == a.plain
  }

  lemma MountsNothing(s: KState, mountPoint: string)
    ensures MountsOnly(s, s, mountPoint) && KeepsPoints(s, s) && NoNewPoints(s, s, [])
  {
  }

  lemma PointMade(a: KState, b: KState, c: KState, target: string, made: bool)
    requires c == if made then WithDir(b, target) else b
    ensures NoNewPoints(a, b, []) ==> NoNewPoints(a, c, if made then [target] else [])
    ensures KeepsPoints(a, b) ==> KeepsPoints(a, c)
    ensures forall m :: MountsOnly(a, b, m) <==> MountsOnly(a, c, m)
  {
  }

  lemma MountedOver(b: KState, c: KState, cfg: Config, apex: Apex, d: MountedApexData, ok: bool)
    requires ok ==> AddedFields(b, c, cfg, apex, PackageId(apex.manifest), d) && FreshLoop(b, apex, d)
                    && d.mountPoint == PackageMountPoint(apex.manifest)
    requires !ok ==> Cleared(b, c, PackageMountPoint(apex.manifest), PackageId(apex.manifest))
    ensures ok ==> forall a, extra | Over(a, b, extra) :: Over(a, c, extra + {(apex.manifest.name, d)})
    ensures !ok ==> forall a, extra | Over(a, b, extra) :: Over(a, c, extra)
    ensures MountsOnly(b, c, PackageMountPoint(apex.manifest))
  {
    if ok {
      forall a, extra | Over(a, b, extra)
        ensures Over(a, c, extra + {(apex.manifest.name, d)})
      {
        OverOneMore(a, b, c, cfg, apex, extra, (apex.manifest.name, d));
      }
    }
  }

  lemma AddedIsThere(t: Table, t': Table, apex: Apex, d: MountedApexData)
    requires Added(t, t', apex, d)
    ensures InTable(t', apex) && forall other | InTable(t, other) :: InTable(t', other)
  {
    assert Has(t', apex.manifest.name, d);
    assert forall p, e | Has(t, p, e) :: Has(t', p, e);
  }

  // What the loop has mounted so far, on top of table t.
  ghost predicate MountedFor(t: Table, t': Table, mounted: seq<Apex>, ds: seq<MountedApexData>, files: Files) {
    && AllDifferent(mounted, ds) && Plus(t, t', Extra(mounted, ds, 0))
    && forall i | 0 <= i < |mounted| :: InFiles(files, mounted[i]) && ds[i].fullPath == mounted[i].path
  }

  lemma MountedForNothing(t: Table, files: Files)
    ensures MountedFor(t, t, [], [], files)
  {
    NothingExtra([], []);
    PlusNothing(t, t);
  }

  lemma MountedForOneMore(t: Table, t1: Table, t2: Table, mounted: seq<Apex>, ds: seq<MountedApexData>, files: Files,
                          apex: Apex, d: MountedApexData)
    requires MountedFor(t, t1, mounted, ds, files) && Added(t1, t2, apex, d) && InFiles(files, apex)
    ensures MountedFor(t, t2, mounted + [apex], ds + [d], files)
  {
    PlusOneMore(t, t1, t2, mounted, ds, apex, d);
    AllDifferentGrows(mounted, ds, apex, d);
  }

  // The search for the file with the hook; two are one too many.
  method FindHook(hooks: seq<bool>) returns (several: bool, hook: Option<nat>)
    ensures several <==> exists i, j :: 0 <= i < j < |hooks| && hooks[i] && hooks[j]
    ensures !several ==> (hook.None? <==> forall i | 0 <= i < |hooks| :: !hooks[i])
    ensures !several && hook.Some? ==> hook.value < |hooks| && hooks[hook.value]
  {
    hook := None;
    var i := 0;
    while i < |hooks|
      invariant 0 <= i <= |hooks|
      invariant hook.None? ==> forall j | 0 <= j < i :: !hooks[j]
      invariant hook.Some? ==> hook.value < i && hooks[hook.value] && forall j | 0 <= j < i && hooks[j] :: j == hook.value
    {
      if hooks[i] {
        if hook.Some? {
          return true, hook;
        }
        hook := Some(i);
      }
      i := i + 1;
    }
    several := false;
  }

  function Paths(apexes: seq<Apex>): seq<string> {
    seq(|apexes|, i requires 0 <= i < |apexes| => apexes[i].path)
  }

  // The package with the hook comes first.
  function HookArgs(apexes: seq<Apex>, h: nat): (args: seq<string>)
    requires h < |apexes|
    ensures |args| == |apexes| && args[0] == apexes[h].path
    ensures forall i | 0 <= i < h :: args[i + 1] == apexes[i].path
    ensures forall i | h < i < |apexes| :: args[i] == apexes[i].path
  {
    [apexes[h].path] + Paths(apexes[..h]) + Paths(apexes[h + 1..])
  }

  lemma OneMorePathOf(apexes: seq<Apex>, i: nat, j: nat)
    requires i <= j < |apexes|
    ensures Paths(apexes[i..j + 1]) == Paths(apexes[i..j]) + [apexes[j].path]
  {
    assert apexes[i..j + 1] == apexes[i..j] + [apexes[j]];
  }

  method BuildArgs(apexes: seq<Apex>, h: nat) returns (args: seq<string>)
    requires h < |apexes|
    ensures args == HookArgs(apexes, h)
  {
    args := [apexes[h].path];
    var i := 0;
    assert Paths(apexes[0..0]) == [];
    while i < |apexes|
      invariant 0 <= i <= |apexes|
      invariant i <= h ==> args == [apexes[h].path] + Paths(apexes[0..i])
      invariant i > h ==> args == [apexes[h].path] + Paths(apexes[0..h]) + Paths(apexes[h + 1..i])
    {
      if i != h {
        OneMorePathOf(apexes, if i < h then 0 else h + 1, i);
        args := args + [apexes[i].path];
      } else {
        assert Paths(apexes[h + 1..h + 1]) == [];
      }
      i := i + 1;
    }
    assert apexes[0..h] == apexes[..h] && apexes[h + 1..i] == apexes[h + 1..];
  }

  // The file of the package is mounted on the package's mount point.
  ghost predicate IsMountedIn(s: KState, apex: Apex) {
    exists d: MountedApexData :: d.fullPath == apex.path && d.mountPoint == PackageMountPoint(apex.manifest) && Backed(s, d)
  }

  // What the hook process relies on.
  ghost predicate HookReady(s: KState, apexes: seq<Apex>) {
    forall i | 0 <= i < |apexes| :: IsMountedIn(s, apexes[i]) && HasPoint(s, ActiveMountPoint(apexes[i].manifest.name))
  }

  ghost predicate OneHook(hooks: seq<bool>) {
    (exists i :: 0 <= i < |hooks| && hooks[i]) && forall i, j | 0 <= i < j < |hooks| :: !(hooks[i] && hooks[j])
  }

  // One process more was run: that of the only hook, with every package mounted.
  ghost predicate HookRan(before: seq<Launch>, after: seq<Launch>, apexes: seq<Apex>, hooks: seq<bool>, ok: bool) {
    OneHook(hooks) && exists h, s :: 0 <= h < |hooks| && h < |apexes| && hooks[h] && HookReady(s, apexes) && after == before + [Launch(HookArgs(apexes, h), s, ok)]
  }

  lemma TableIsReady(t: Table, s: KState, files: Files, loose: set<string>, apexes: seq<Apex>)
    requires Coupled(t, s, files, loose) && forall i | 0 <= i < |apexes| :: InFiles(files, apexes[i])
    requires forall i | 0 <= i < |apexes| :: InTable(t, apexes[i]) && HasPoint(s, ActiveMountPoint(apexes[i].manifest.name))
    ensures HookReady(s, apexes)
  {
    forall i | 0 <= i < |apexes|
      ensures IsMountedIn(s, apexes[i])
    {
      var d :| Has(t, apexes[i].manifest.name, d) && d.fullPath == apexes[i].path;
      assert EntryOk(files, apexes[i].manifest.name, d) && Backed(s, d);
    }
  }

  // From the i-th on, every package is in the table or can be mounted.
  ghost predicate Preparable(t: Table, s: KState, cfg: Config, apexes: seq<Apex>, i: nat) {
    forall j | i <= j < |apexes| :: InTable(t, apexes[j]) || Mountable(s, cfg, apexes[j], PackageMountPoint(apexes[j].manifest))
  }

  ghost predicate DifferentManifests(apexes: seq<Apex>) {
    forall i, j | 0 <= i < j < |apexes| :: apexes[i].manifest != apexes[j].manifest
  }

  lemma StillPreparable(t: Table, a: KState, u: Table, b: KState, cfg: Config, apexes: seq<Apex>, i: nat)
    requires i < |apexes| && DifferentManifests(apexes) && Preparable(t, a, cfg, apexes, i)
    requires MountsOnly(a, b, PackageMountPoint(apexes[i].manifest))
    requires forall other | InTable(t, other) :: InTable(u, other)
    ensures Preparable(u, b, cfg, apexes, i + 1)
  {
    forall j | i < j < |apexes|
      ensures PackageMountPoint(apexes[j].manifest) != PackageMountPoint(apexes[i].manifest)
    {
      if PackageMountPoint(apexes[j].manifest) == PackageMountPoint(apexes[i].manifest) {
        PackageMountPointInjective(apexes[j].manifest, apexes[i].manifest);
      }
    }
    hide InTable, PackageMountPoint, DifferentManifests, KindFits;
  }

  // What the loop of StageFnInstall has done after i packages.
  ghost predicate Prepared(t: Table, a: KState, u: Table, b: KState, cfg: Config, apexes: seq<Apex>, i: nat, files: Files,
                           mounted: seq<Apex>, dirs: seq<string>, ds: seq<MountedApexData>, ok: bool, quiet: bool)
    requires i <= |apexes|
  {
    && MountedFor(t, u, mounted, ds, files) && NoNewPoints(a, b, dirs)
    && (ok ==> forall j | 0 <= j < i :: InTable(u, apexes[j]) && HasPoint(b, ActiveMountPoint(apexes[j].manifest.name)))
    && (quiet && DifferentManifests(apexes) && Preparable(t, a, cfg, apexes, 0) ==> ok && Preparable(u, b, cfg, apexes, i))
  }

  lemma PreparableNext(u: Table, b: KState, v: Table, c: KState, cfg: Config, apexes: seq<Apex>, i: nat, ok: bool)
    requires i < |apexes| && DifferentManifests(apexes) && Preparable(u, b, cfg, apexes, i)
    requires MountsOnly(b, c, PackageMountPoint(apexes[i].manifest)) && forall other | InTable(u, other) :: InTable(v, other)
    requires !ok ==> !InTable(u, apexes[i]) && !Mountable(b, cfg, apexes[i], PackageMountPoint(apexes[i].manifest))
    ensures ok && Preparable(v, c, cfg, apexes, i + 1)
  {
    hide *;
    PreparableHere(u, b, cfg, apexes, i);
    StillPreparable(u, b, v, c, cfg, apexes, i);
  }

  lemma PreparedNext(t: Table, a: KState, u: Table, b: KState, v: Table, c: KState, cfg: Config, apexes: seq<Apex>, i: nat, files: Files,
                     mounted: seq<Apex>, dirs: seq<string>, ds: seq<MountedApexData>, quiet: bool, ok: bool, mountedNow: bool, d: MountedApexData,
                     made: seq<string>, quietNow: bool)
    requires i < |apexes| && FilesOk(files) && forall j | 0 <= j < |apexes| :: InFiles(files, apexes[j])
    requires Prepared(t, a, u, b, cfg, apexes, i, files, mounted, dirs, ds, true, quiet) && NoNewPoints(b, c, made)
    requires if mountedNow then Added(u, v, apexes[i], d) else v == u
    requires ok ==> InTable(v, apexes[i]) && HasPoint(c, ActiveMountPoint(apexes[i].manifest.name))
    requires (forall other | InTable(u, other) :: InTable(v, other)) && KeepsPoints(b, c)
    requires quietNow ==> MountsOnly(b, c, PackageMountPoint(apexes[i].manifest))
    requires !ok && quietNow ==> !InTable(u, apexes[i]) && !Mountable(b, cfg, apexes[i], PackageMountPoint(apexes[i].manifest))
    ensures Prepared(t, a, v, c, cfg, apexes, i + 1, files, if mountedNow then mounted + [apexes[i]] else mounted,
                     dirs + made, if mountedNow then ds + [d] else ds, ok, quiet && quietNow)
    ensures mountedNow ==> Extra(mounted + [apexes[i]], ds + [d], 0) == Extra(mounted, ds, 0) + {(apexes[i].manifest.name, d)}
  {
    hide MountedFor, InTable, HasPoint, DifferentManifests, Preparable, MountsOnly, Mountable, PackageMountPoint, Added, Extra, InFiles, FilesOk, KeepsPoints,
         ActiveMountPoint, KindFits;
    PointsKept(b, c, files, apexes);
    if mountedNow {
      MountedForOneMore(t, u, v, mounted, ds, files, apexes[i], d);
      ExtraOneMore(t, u, mounted, ds, files, apexes[i], d);
    }
    if quiet && quietNow && DifferentManifests(apexes) && Preparable(t, a, cfg, apexes, 0) {
      PreparableNext(u, b, v, c, cfg, apexes, i, ok);
    }
  }

  method PrepareNext(db: MountedApexDatabase, k: Kernel, cfg: Config, apexes: seq<Apex>, i: nat, mounted: seq<Apex>, dirs: seq<string>,
                     ghost ds: seq<MountedApexData>, ghost files: Files, ghost loose: set<string>, ghost t: Table, ghost s: KState, ghost quiet: bool)
    returns (ok: bool, mounted': seq<Apex>, dirs': seq<string>, ghost ds': seq<MountedApexData>)
    requires i < |apexes| && FilesOk(files) && Coupled(db.mounted, k.s, files, loose)
    requires forall j | 0 <= j < |apexes| :: InFiles(files, apexes[j])
    requires Prepared(t, s, db.mounted, k.s, cfg, apexes, i, files, mounted, dirs, ds, true, quiet)
    modifies db, k`s, k`faults, k`leaks, k`inverted, k`passed
    ensures k.leaks >= old(k.leaks) && k.faults >= old(k.faults) && Coupled(db.mounted, k.s, files, loose)
    ensures Prepared(t, s, db.mounted, k.s, cfg, apexes, i + 1, files, mounted', dirs', ds', ok, quiet && k.faults == old(k.faults) && k.leaks == old(k.leaks))
    ensures k.leaks == old(k.leaks) && Over(s, old(k.s), Extra(mounted, ds, 0)) ==> Over(s, k.s, Extra(mounted', ds', 0))
    ensures Layered(old(db.mounted), old(k.s)) && k.leaks == old(k.leaks) ==>
              Layered(db.mounted, k.s) && k.inverted == old(k.inverted)
  {
    ghost var u, b := db.mounted, k.s;
    hide *;
    var aborts, mountedNow, made;
    ghost var d;
    ok, aborts, mountedNow, made, d := Prepare(db, k, cfg, apexes[i], files, loose);
    PreparedNext(t, s, u, b, db.mounted, k.s, cfg, apexes, i, files, mounted, dirs, ds, quiet, ok, mountedNow, d,
                 if made then [ActiveMountPoint(apexes[i].manifest.name)] else [], k.faults == old(k.faults) && k.leaks == old(k.leaks));
    mounted', ds' := if mountedNow then mounted + [apexes[i]] else mounted, if mountedNow then ds + [d] else ds;
    dirs' := dirs + if made then [ActiveMountPoint(apexes[i].manifest.name)] else [];
  }

  // The loop of StageFnInstall.
  method PrepareAll(db: MountedApexDatabase, k: Kernel, cfg: Config, apexes: seq<Apex>, ghost files: Files, ghost loose: set<string>)
    returns (ok: bool, mounted: seq<Apex>, dirs: seq<string>, ghost ds: seq<MountedApexData>)
    requires FilesOk(files) && Coupled(db.mounted, k.s, files, loose)
    requires forall i | 0 <= i < |apexes| :: InFiles(files, apexes[i])
    modifies db, k`s, k`faults, k`leaks, k`inverted, k`passed
    ensures k.leaks >= old(k.leaks) && k.faults >= old(k.faults) && Coupled(db.mounted, k.s, files, loose)
    ensures MountedFor(old(db.mounted), db.mounted, mounted, ds, files) && NoNewPoints(old(k.s), k.s, dirs)
    ensures k.leaks == old(k.leaks) ==> Over(old(k.s), k.s, Extra(mounted, ds, 0))
    ensures ok ==> HookReady(k.s, apexes)
    ensures k.faults == old(k.faults) && k.leaks == old(k.leaks) && DifferentManifests(apexes) ==>
              (Preparable(old(db.mounted), old(k.s), cfg, apexes, 0) ==> ok)
    ensures Layered(old(db.mounted), old(k.s)) && k.leaks == old(k.leaks) ==>
              Layered(db.mounted, k.s) && k.inverted == old(k.inverted)
  {
    ghost var t, s := db.mounted, k.s;
    OverNothing(s, s);
    NothingExtra([], []);
    MountedForNothing(t, files);
    ok, mounted, dirs, ds := true, [], [], [];
    assert Prepared(t, s, t, s, cfg, apexes, 0, files, mounted, dirs, ds, true, true);
    hide *;
    var i := 0;
    while i < |apexes| && ok
      invariant 0 <= i <= |apexes| && k.leaks >= old(k.leaks) && k.faults >= old(k.faults)
      invariant Coupled(db.mounted, k.s, files, loose)
      invariant Prepared(t, s, db.mounted, k.s, cfg, apexes, i, files, mounted, dirs, ds, ok, k.faults == old(k.faults) && k.leaks == old(k.leaks))
      invariant k.leaks == old(k.leaks) ==> Over(s, k.s, Extra(mounted, ds, 0))
      invariant Layered(t, s) && k.leaks == old(k.leaks) ==> Layered(db.mounted, k.s) && k.inverted == old(k.inverted)
      decreases |apexes| - i
    {
      ok, mounted, dirs, ds := PrepareNext(db, k, cfg, apexes, i, mounted, dirs, ds, files, loose, t, s,
                                           k.faults == old(k.faults) && k.leaks == old(k.leaks));
      i := i + 1;
    }
    AllPrepared(t, s, db.mounted, k.s, cfg, apexes, i, files, loose, mounted, dirs, ds, ok, k.faults == old(k.faults) && k.leaks == old(k.leaks));
  }

  lemma AllPrepared(t: Table, a: KState, u: Table, b: KState, cfg: Config, apexes: seq<Apex>, i: nat, files: Files, loose: set<string>,
                    mounted: seq<Apex>, dirs: seq<string>, ds: seq<MountedApexData>, ok: bool, quiet: bool)
    requires i <= |apexes| && Prepared(t, a, u, b, cfg, apexes, i, files, mounted, dirs, ds, ok, quiet)
    requires Coupled(u, b, files, loose) && forall j | 0 <= j < |apexes| :: InFiles(files, apexes[j])
    ensures MountedFor(t, u, mounted, ds, files) && NoNewPoints(a, b, dirs) && (i == |apexes| && ok ==> HookReady(b, apexes))
    ensures quiet && DifferentManifests(apexes) && Preparable(t, a, cfg, apexes, 0) ==> ok
  {
    if i == |apexes| && ok {
      TableIsReady(u, b, files, loose, apexes);
    }
  }

  /** StageFnInstall: if the hook runs, it runs once and with every package mounted, the package with the hook named first;
      and on every return path the table holds what it held before and the kernel has the mounts and loop devices it
      had before, if no unmount leaks.  hooks tells which of the packages has a hook. */
  method StageFnInstall(db: MountedApexDatabase, k: Kernel, cfg: Config, apexes: seq<Apex>, hooks: seq<bool>,
                        ghost files: Files, ghost loose: set<string>)
    returns (ok: bool, aborted: bool)
    requires FilesOk(files) && Coupled(db.mounted, k.s, files, loose)
    requires |hooks| == |apexes| && forall i | 0 <= i < |apexes| :: InFiles(files, apexes[i])
    modifies db, k
    ensures Coupled(db.mounted, k.s, files, loose) && k.leaks >= old(k.leaks) && k.faults >= old(k.faults)
    ensures HookRan(old(k.ran), k.ran, apexes, hooks, ok) || (k.ran == old(k.ran) && !ok)
    ensures !OneHook(hooks) ==> k.ran == old(k.ran) && !ok
    ensures k.faults == old(k.faults) && k.leaks == old(k.leaks) && OneHook(hooks) && DifferentManifests(apexes) ==>
              (Preparable(old(db.mounted), old(k.s), cfg, apexes, 0) ==> HookRan(old(k.ran), k.ran, apexes, hooks, ok))
    ensures k.leaks == old(k.leaks) ==> SameEntries(old(db.mounted), db.mounted)
    ensures k.leaks == old(k.leaks) ==> k.s.mounts == old(k.s).mounts && k.s.loops == old(k.s).loops
    ensures k.leaks == old(k.leaks) ==>
              forall point | '@' !in point && point in k.s.dirs :: point in old(k.s).dirs || point in old(k.s).mounts
    ensures aborted <==> forall i | 0 <= i < |hooks| :: !hooks[i]
    ensures Layered(old(db.mounted), old(k.s)) && k.leaks == old(k.leaks) ==>
              Layered(db.mounted, k.s) && k.inverted == old(k.inverted)
  {
    ghost var t, s := db.mounted, k.s;
    PlusNothing(t, t);
    NothingExtra([], []);
    ok, aborted := false, false;
    var several, hook := FindHook(hooks);
    assert OneHook(hooks) <==> !several && hook.Some?;
    if several {
      return;
    }
    if hook.None? {
      return false, true;
    }
    hide *;
    var mounted, dirs;
    ghost var ds;
    ok, mounted, dirs, ds := PrepareAll(db, k, cfg, apexes, files, loose);
    if ok {
      var args := BuildArgs(apexes, hook.value);
      ghost var before := k.ran;
      ok := k.Run(args);
      HookHasRun(before, k.ran, apexes, hooks, hook.value, k.s, ok);
    }
    ForTearDown(t, db.mounted, mounted, ds, files);
    ghost var b := k.s;
    TearDown(db, k, mounted, dirs, ds, t, s, files, loose);
    OverNothing(s, k.s);
    if k.leaks == old(k.leaks) {
      PointsGone(s, b, k.s, dirs);
    }
  }

  lemma PointsGone(a: KState, b: KState, c: KState, made: seq<string>)
    requires NoNewPoints(a, b, made) && c.mounts == a.mounts
    requires forall dir | dir in c.dirs :: dir in b.dirs && (dir !in made || dir in c.mounts)
    ensures forall point | '@' !in point && point in c.dirs :: point in a.dirs || point in a.mounts
  {
  }

  lemma HookHasRun(before: seq<Launch>, after: seq<Launch>, apexes: seq<Apex>, hooks: seq<bool>, h: nat, s: KState, ok: bool)
    requires OneHook(hooks) && h < |hooks| == |apexes| && hooks[h] && HookReady(s, apexes) && after == before + [Launch(HookArgs(apexes, h), s, ok)]
    ensures HookRan(before, after, apexes, hooks, ok)
  {
  }

  lemma ForTearDown(t: Table, t1: Table, mounted: seq<Apex>, ds: seq<MountedApexData>, files: Files)
    requires MountedFor(t, t1, mounted, ds, files)
    ensures AllDifferent(mounted, ds) && |mounted| == |ds| && forall i | 0 <= i < |mounted| :: InFiles(files, mounted[i]) && ds[i].fullPath == mounted[i].path
    ensures Plus(t, t1, Extra(mounted, ds, 0))
  {
  }

  lemma ExtraOneMore(t: Table, t1: Table, mounted: seq<Apex>, ds: seq<MountedApexData>, files: Files, apex: Apex, d: MountedApexData)
    requires MountedFor(t, t1, mounted, ds, files)
    ensures Extra(mounted + [apex], ds + [d], 0) == Extra(mounted, ds, 0) + {(apex.manifest.name, d)}
  {
    ExtraGrows(mounted, ds, apex, d);
  }

  lemma PreparableHere(t: Table, s: KState, cfg: Config, apexes: seq<Apex>, i: nat)
    requires i < |apexes| && Preparable(t, s, cfg, apexes, i)
    ensures InTable(t, apexes[i]) || Mountable(s, cfg, apexes[i], PackageMountPoint(apexes[i].manifest))
  {
  }

  lemma PointsKept(a: KState, b: KState, files: Files, apexes: seq<Apex>)
    requires KeepsPoints(a, b) && FilesOk(files) && forall i | 0 <= i < |apexes| :: InFiles(files, apexes[i])
    ensures forall i | 0 <= i < |apexes| && HasPoint(a, ActiveMountPoint(apexes[i].manifest.name)) ::
              HasPoint(b, ActiveMountPoint(apexes[i].manifest.name))
  {
    forall i | 0 <= i < |apexes|
      ensures '@' !in ActiveMountPoint(apexes[i].manifest.name)
    {
      assert files[apexes[i].path] == apexes[i];
    }
  }

  /** PrePostinstallPackages: calls StageFnInstall only when some package has a hook, so its CHECK holds. */
  method PrePostinstallPackages(db: MountedApexDatabase, k: Kernel, cfg: Config, apexes: seq<Apex>, hooks: seq<bool>,
                                ghost files: Files, ghost loose: set<string>)
    returns (ok: bool, aborted: bool)
    requires FilesOk(files) && Coupled(db.mounted, k.s, files, loose)
    requires |hooks| == |apexes| && forall i | 0 <= i < |apexes| :: InFiles(files, apexes[i])
    modifies db, k
    ensures Coupled(db.mounted, k.s, files, loose) && k.leaks >= old(k.leaks) && k.faults >= old(k.faults) && !aborted
    ensures HookRan(old(k.ran), k.ran, apexes, hooks, ok) || k.ran == old(k.ran)
    ensures k.faults == old(k.faults) && k.leaks == old(k.leaks) && OneHook(hooks) && DifferentManifests(apexes) ==>
              (Preparable(old(db.mounted), old(k.s), cfg, apexes, 0) ==> HookRan(old(k.ran), k.ran, apexes, hooks, ok))
    ensures (exists i :: 0 <= i < |hooks| && hooks[i]) && !OneHook(hooks) ==> !ok && k.ran == old(k.ran)
    ensures ok ==> apexes != [] && ((forall i | 0 <= i < |hooks| :: !hooks[i]) || HookRan(old(k.ran), k.ran, apexes, hooks, true))
    ensures k.leaks == old(k.leaks) ==> SameEntries(old(db.mounted), db.mounted)
    ensures k.leaks == old(k.leaks) ==> k.s.mounts == old(k.s).mounts && k.s.loops == old(k.s).loops
    ensures (forall i | 0 <= i < |hooks| :: !hooks[i]) ==> (ok <==> apexes != []) && k.s == old(k.s) && k.ran == old(k.ran)
    ensures Layered(old(db.mounted), old(k.s)) && k.leaks == old(k.leaks) ==>
              Layered(db.mounted, k.s) && k.inverted == old(k.inverted)
  {
    hide Coupled, Layered, InFiles, HookRan, Preparable, DifferentManifests;
    aborted := false;
    if apexes == [] {
      return false, false;
    }
    var hasHooks := false;
    var i := 0;
    while i < |hooks| && !hasHooks
      invariant 0 <= i <= |hooks|
      invariant hasHooks ==> exists j :: 0 <= j < |hooks| && hooks[j]
      invariant !hasHooks ==> forall j | 0 <= j < i :: !hooks[j]
      modifies {}
      decreases |hooks| - i, !hasHooks
    {
      if hooks[i] {
        hasHooks := true;
      } else {
        i := i + 1;
      }
    }
    ok := true;
    if hasHooks {
      ok, aborted := StageFnInstall(db, k, cfg, apexes, hooks, files, loose);
    }
  }
}
