// The invariant that ties the table of mounted packages to the kernel it mirrors.
module Coupling {
  import opened Names
  import opened Database
  import opened KernelModel
  import opened Mount

  type Files = map<string, Apex>  // the files that ApexFile::Open can open

  ghost predicate FilesOk(files: Files) {
    forall path | path in files :: files[path].path == path && '@' !in files[path].manifest.name
  }

  predicate EntryOk(files: Files, p: string, d: MountedApexData) {
    && d.fullPath in files
    && var m := files[d.fullPath].manifest;
       m.name == p && d.mountPoint == PackageMountPoint(m) && (d.deviceName == "" || d.deviceName == PackageId(m))
  }

  // The active mount point of the package shows what is mounted for d.
  predicate Bound(s: KState, p: string, d: MountedApexData) {
    d.mountPoint in s.mounts && s.mounts[d.mountPoint] != [] && Top(s, ActiveMountPoint(p)) == Some(s.mounts[d.mountPoint][0])
  }

  ghost predicate OwnedMount(t: Table, mountPoint: string) {
    exists p, d :: Has(t, p, d) && d.mountPoint == mountPoint
  }

  ghost predicate DistinctMountPoints(t: Table) {
    forall p, d, q, e | Has(t, p, d) && Has(t, q, e) && d.mountPoint == e.mountPoint :: p == q && d == e
  }

  // loose holds the packages whose active mount point a failing bind mount has left in an unknown state.
  ghost predicate Coupled(t: Table, s: KState, files: Files, loose: set<string>) {
    && (forall p, d | Has(t, p, d) :: EntryOk(files, p, d) && Backed(s, d))
    && DistinctMountPoints(t) && EachAtMostOneLatest(t)
    && (forall p, d | Latest(t, p, d) && p !in loose :: Bound(s, p, d))
  }

  lemma MoreLoose(t: Table, s: KState, files: Files, loose: set<string>, more: set<string>)
    requires Coupled(t, s, files, loose) && loose <= more
    ensures Coupled(t, s, files, more)
  {
  }

  // No dm device outlives its loop device: none is without one, and an entry's loop device has no other on it.
  ghost predicate Layered(t: Table, s: KState) {
    Grounded(s) && forall p, d | Has(t, p, d) :: OwnsLoop(s, d)
  }

  lemma SamePathSameEntry(t: Table, s: KState, files: Files, loose: set<string>, p: string, d: MountedApexData, q: string, e: MountedApexData)
    requires Coupled(t, s, files, loose) && Has(t, p, d) && Has(t, q, e) && d.fullPath == e.fullPath
    ensures p == q && d == e
  {
    assert d.mountPoint == e.mountPoint;
  }

  /** Loop and dm names follow from the kernel: a file has one loop device, a device one name. */
  lemma CoupledIsUnique(t: Table, s: KState, files: Files, loose: set<string>)
    requires Coupled(t, s, files, loose)
    ensures UniqueLoopDm(t)
  {
    forall x, y | x in Pairs(t) && y in Pairs(t) && Clash(x.1, y.1)
      ensures x == y
    {
      assert Has(t, x.0, x.1) && Has(t, y.0, y.1);
      if x.1.deviceName == y.1.deviceName && x.1.deviceName != "" {
        PackageIdInjective(files[x.1.fullPath].manifest, files[y.1.fullPath].manifest);
        assert x.1.mountPoint == y.1.mountPoint;
      } else {
        SamePathSameEntry(t, s, files, loose, x.0, x.1, y.0, y.1);
      }
    }
  }

  /** Mounting */

  lemma ExtendsKeepsEntry(a: KState, b: KState, files: Files, m: Manifest, p: string, e: MountedApexData)
    requires Extends(a, b, PackageMountPoint(m), PackageId(m)) && EntryOk(files, p, e) && Backed(a, e)
    ensures Backed(b, e) && b.mounts[e.mountPoint] == a.mounts[e.mountPoint]
    ensures PackageMountPoint(m) !in a.mounts ==> e.mountPoint != PackageMountPoint(m)
  {
    if PackageMountPoint(m) in a.mounts {
      assert a == b;
    } else if e.deviceName == PackageId(m) {
      PackageIdInjective(m, files[e.fullPath].manifest);
    }
  }

  lemma ExtendsKeepsBound(a: KState, b: KState, files: Files, m: Manifest, p: string, e: MountedApexData)
    requires Extends(a, b, PackageMountPoint(m), PackageId(m)) && EntryOk(files, p, e) && Backed(a, e) && Bound(a, p, e)
    ensures Bound(b, p, e)
  {
    ExtendsKeepsEntry(a, b, files, m, p, e);
  }

  lemma FailedMountKeepsCoupled(t: Table, a: KState, b: KState, files: Files, loose: set<string>, m: Manifest)
    requires Coupled(t, a, files, loose) && Extends(a, b, PackageMountPoint(m), PackageId(m))
    ensures Coupled(t, b, files, loose)
  {
    forall p, e | Has(t, p, e)
      ensures Backed(b, e)
    {
      ExtendsKeepsEntry(a, b, files, m, p, e);
    }
    forall p, e | Latest(t, p, e) && p !in loose
      ensures Bound(b, p, e)
    {
      assert Has(t, p, e);
      ExtendsKeepsBound(a, b, files, m, p, e);
    }
  }

  lemma MountKeepsCoupled(t: Table, a: KState, b: KState, files: Files, loose: set<string>, cfg: Config, apex: Apex, d: MountedApexData)
    requires Coupled(t, a, files, loose) && apex.path in files && files[apex.path] == apex
    requires Extends(a, b, PackageMountPoint(apex.manifest), PackageId(apex.manifest))
    requires MountedRight(a, b, cfg, apex, PackageMountPoint(apex.manifest), PackageId(apex.manifest), d)
    ensures !Has(t, apex.manifest.name, d)
    ensures Coupled(WithEntry(t, apex.manifest.name, d, false), b, files, loose)
  {
    var p, t' := apex.manifest.name, WithEntry(t, apex.manifest.name, d, false);
    FailedMountKeepsCoupled(t, a, b, files, loose, apex.manifest);
    assert forall q, e | Has(t, q, e) :: Backed(a, e) && e.mountPoint in a.mounts;
    EntriesWith(t, p, d);
    assert d.mountPoint !in a.mounts && EntryOk(files, p, d) && Backed(b, d);
    hide Extends, Backed, Bound, MountedRight, EntryOk, Has, Latest, WithEntry, EachAtMostOneLatest;
  }

  lemma EntriesWith(t: Table, p: string, d: MountedApexData)
    requires !Has(t, p, d)
    ensures var t' := WithEntry(t, p, d, false);
      && (forall q, e :: Has(t', q, e) <==> Has(t, q, e) || (q, e) == (p, d))
      && (forall q, e :: Latest(t', q, e) <==> Latest(t, q, e))
      && (EachAtMostOneLatest(t) ==> EachAtMostOneLatest(t'))
  {
    var t' := WithEntry(t, p, d, false);
    assert forall q, e :: Latest(t', q, e) <==> Latest(t, q, e);
    forall q | q in t' && EachAtMostOneLatest(t)
      ensures AtMostOneLatest(t'[q])
    {
      assert forall e | e in t'[q] && t'[q][e] :: Latest(t, q, e);
    }
  }

  /** Unmounting */

  lemma ShrinksKeepsEntry(a: KState, b: KState, d: MountedApexData, e: MountedApexData)
    requires Shrinks(a, b, d) && Backed(a, e) && e.mountPoint != d.mountPoint && !Clash(d, e)
    ensures Backed(b, e) && b.mounts[e.mountPoint] == a.mounts[e.mountPoint]
  {
  }

  lemma UnmountKeepsOther(t: Table, a: KState, b: KState, files: Files, loose: set<string>, p: string, d: MountedApexData, q: string, e: MountedApexData)
    requires FilesOk(files) && Coupled(t, a, files, loose) && Has(t, p, d) && Shrinks(a, b, d)
    requires Has(t, q, e) && (q, e) != (p, d)
    ensures Backed(b, e) && (Latest(t, q, e) && q !in loose ==> Bound(b, q, e))
  {
    CoupledIsUnique(t, a, files, loose);
    assert (p, d) in Pairs(t) && (q, e) in Pairs(t);
    assert e.mountPoint != d.mountPoint && !Clash(d, e) && Backed(a, e) && EntryOk(files, q, e);
    ShrinksKeepsEntry(a, b, d, e);
    MountPointsAreNotActivePoints(files[d.fullPath].manifest, files[e.fullPath].manifest.name);
    if Latest(t, q, e) && q !in loose {
      assert Bound(a, q, e);
    }
  }

  lemma UnmountKeepsCoupled(t: Table, a: KState, b: KState, files: Files, loose: set<string>, p: string, d: MountedApexData)
    requires FilesOk(files) && Coupled(t, a, files, loose) && Has(t, p, d) && Shrinks(a, b, d)
    ensures Coupled(WithoutEntry(t, p, d), b, files, loose)
  {
    var t' := WithoutEntry(t, p, d);
    EntriesLeft(t, p, d);
    RemovalKeepsConsistency(t, p, d);
    forall q, e | Has(t', q, e)
      ensures Backed(b, e) && (Latest(t, q, e) && q !in loose ==> Bound(b, q, e))
    {
      UnmountKeepsOther(t, a, b, files, loose, p, d, q, e);
    }
    hide Shrinks, Backed, Bound, WithoutEntry, Has, Latest, EachAtMostOneLatest;
  }

  lemma EntriesLeft(t: Table, p: string, d: MountedApexData)
    ensures forall q, e :: Has(WithoutEntry(t, p, d), q, e) <==> Has(t, q, e) && (q, e) != (p, d)
    ensures forall q, e :: Latest(WithoutEntry(t, p, d), q, e) <==> Latest(t, q, e) && (q, e) != (p, d)
  {
  }

  lemma ActivePointInjective(p: string, q: string)
    requires ActiveMountPoint(p) == ActiveMountPoint(q)
    ensures p == q
  {
    assert p == ActiveMountPoint(p)[|APEX_ROOT| + 1..];
    assert q == ActiveMountPoint(q)[|APEX_ROOT| + 1..];
  }

  // b differs from a at most in what is stacked on the active mount point of p, and in plain directories.
  ghost predicate OnlyStack(a: KState, b: KState, target: string) {
    && b.loops == a.loops && b.dms == a.dms
    && (forall m | m != target :: (m in b.mounts <==> m in a.mounts) && (m in a.mounts ==> b.mounts[m] == a.mounts[m]))
  }

  // Whatever happens on one active mount point, only the latest entry of that package can be affected.
  lemma OnlyStackKeepsEntries(t: Table, a: KState, b: KState, files: Files, loose: set<string>, p: string)
    requires FilesOk(files) && Coupled(t, a, files, loose) && '@' !in p && OnlyStack(a, b, ActiveMountPoint(p))
    ensures forall q, e | Has(t, q, e) :: Backed(b, e) && b.mounts[e.mountPoint] == a.mounts[e.mountPoint]
    ensures forall q, e | Latest(t, q, e) && q != p && q !in loose :: Bound(b, q, e)
  {
    forall q, e | Has(t, q, e)
      ensures e.mountPoint != ActiveMountPoint(p)
    {
      MountPointsAreNotActivePoints(files[e.fullPath].manifest, p);
    }
    forall q, e | Latest(t, q, e) && q != p && q !in loose
      ensures Bound(b, q, e)
    {
      assert Has(t, q, e) && Bound(a, q, e);
      if ActiveMountPoint(q) == ActiveMountPoint(p) {
        ActivePointInjective(p, q);
      }
    }
  }

  /** Theorem: after any change to the active mount point of p, such as a bind mount that failed
      halfway, table and kernel agree exactly if the latest entry of p, if any, is still shown there. */
  lemma StackChangeDecouples(t: Table, a: KState, b: KState, files: Files, loose: set<string>, p: string)
    requires FilesOk(files) && Coupled(t, a, files, loose) && '@' !in p && OnlyStack(a, b, ActiveMountPoint(p))
    ensures Coupled(t, b, files, loose + {p})
    ensures Coupled(t, b, files, loose) <==>
              p in loose || forall d | Latest(t, p, d) :: Top(b, ActiveMountPoint(p)) == Top(a, ActiveMountPoint(p))
  {
    OnlyStackKeepsEntries(t, a, b, files, loose, p);
    forall d | Latest(t, p, d) && p !in loose
      ensures Bound(b, p, d) <==> Top(b, ActiveMountPoint(p)) == Top(a, ActiveMountPoint(p))
    {
      assert Has(t, p, d) && Bound(a, p, d);
    }
  }

  lemma LatestSetKeepsCoupled(t: Table, a: KState, b: KState, files: Files, loose: set<string>, p: string, d: MountedApexData)
    requires FilesOk(files) && Coupled(t, a, files, loose) && '@' !in p && OnlyStack(a, b, ActiveMountPoint(p))
    requires Has(t, p, d) && Bound(b, p, d)
    ensures Coupled(t[p := OnlyLatest(t[p], d)], b, files, loose - {p})
  {
    OnlyStackKeepsEntries(t, a, b, files, loose, p);
    var t' := t[p := OnlyLatest(t[p], d)];
    assert forall q, e :: Has(t', q, e) <==> Has(t, q, e);
    assert forall q, e :: Latest(t', q, e) <==> if q == p then e == d else Latest(t, q, e);
  }

  lemma EntryRemovedKeepsCoupled(t: Table, a: KState, b: KState, files: Files, loose: set<string>, p: string, d: MountedApexData)
    requires FilesOk(files) && Coupled(t, a, files, loose) && '@' !in p && OnlyStack(a, b, ActiveMountPoint(p)) && Latest(t, p, d)
    ensures Has(t, p, d) && Coupled(t[p := NoneLatest(t[p])], b, files, loose)
    ensures WithoutEntry(t[p := NoneLatest(t[p])], p, d) == WithoutEntry(t, p, d)
  {
    OnlyStackKeepsEntries(t, a, b, files, loose, p);
    var t' := t[p := NoneLatest(t[p])];
    assert forall q, e :: Has(t', q, e) <==> Has(t, q, e);
    assert forall q, e :: Latest(t', q, e) <==> q != p && Latest(t, q, e);
    assert t'[p] - {d} == t[p] - {d};
  }

  /** Layers */

  lemma MountKeepsLayered(t: Table, a: KState, b: KState, files: Files, loose: set<string>, cfg: Config, apex: Apex, d: MountedApexData)
    requires Coupled(t, a, files, loose) && Layered(t, a)
    requires MountedRight(a, b, cfg, apex, PackageMountPoint(apex.manifest), PackageId(apex.manifest), d)
    requires MountedExactly(WithDir(a, PackageMountPoint(apex.manifest)), b, cfg, apex,
                            PackageMountPoint(apex.manifest), PackageId(apex.manifest), d.loopName)
    ensures Layered(WithEntry(t, apex.manifest.name, d, false), b)
  {
    var p, mountPoint, device := apex.manifest.name, PackageMountPoint(apex.manifest), PackageId(apex.manifest);
    MountAddsFields(a, b, cfg, apex, mountPoint, device, d);
    UnmountUndoesMount(a, b, cfg, apex, mountPoint, device, d);
    hide MountedRight, MountedExactly, WithDir, Unmounted, OnVerity;
    forall q, e | Has(WithEntry(t, p, d, false), q, e)
      ensures OwnsLoop(b, e)
    {
      if (q, e) != (p, d) {
        assert Has(t, q, e) && Backed(a, e) && OwnsLoop(a, e);
      }
    }
  }

  lemma ClearedKeepsLayered(t: Table, a: KState, b: KState, mountPoint: string, device: string)
    requires Layered(t, a) && Cleared(a, b, mountPoint, device)
    ensures Layered(t, b)
  {
  }

  lemma UnmountKeepsLayered(t: Table, a: KState, files: Files, loose: set<string>, p: string, d: MountedApexData)
    requires Coupled(t, a, files, loose) && Layered(t, a) && Has(t, p, d)
    ensures OwnsLoop(a, d) && Layered(WithoutEntry(t, p, d), Unmounted(a, d))
  {
    assert Backed(a, d);
    UnmountTakesFields(a, d);
    EntriesLeft(t, p, d);
    hide Unmounted, Backed, WithoutEntry, Has, Tagged, EntryOk;
    forall q, e | Has(WithoutEntry(t, p, d), q, e)
      ensures OwnsLoop(Unmounted(a, d), e)
    {
      assert Has(t, q, e) && OwnsLoop(a, e);
    }
    OwnedThenFreed(a, Unmounted(a, d), d);
  }

  lemma OwnedThenFreed(a: KState, b: KState, d: MountedApexData)
    requires Grounded(a) && OwnsLoop(a, d)
    requires b.loops == (if Tagged(a, d.loopName) then a.loops - {d.loopName} else a.loops)
    requires b.dms == (if d.deviceName != "" then a.dms - {d.deviceName} else a.dms)
    ensures Grounded(b)
  {
  }
}
