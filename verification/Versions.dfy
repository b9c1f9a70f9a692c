// Which version of a package is the latest.
module Versions {
  import opened Names
  import opened Database
  import opened KernelModel
  import opened Mount
  import opened Coupling

  // Versions are compared as unsigned 64-bit numbers.
  function ApexVersion(apex: Apex): (v: nat)
    ensures apex.manifest.version >= 0 ==> v == apex.manifest.version
    ensures apex.manifest.version < 0 ==> v > 0x7FFF_FFFF_FFFF_FFFF
  {
    Unsigned(apex.manifest.version)
  }

  function VersionOf(files: Files, d: MountedApexData): nat {
    if d.fullPath in files then ApexVersion(files[d.fullPath]) else 0
  }

  // d is marked latest and no entry has a higher version.
  ghost predicate IsTop(m: Entries, files: Files, d: MountedApexData) {
    d in m && m[d] && forall e | e in m :: VersionOf(files, e) <= VersionOf(files, d)
  }

  // The highest version is marked latest.
  ghost predicate HasTop(m: Entries, files: Files) {
    m == map[] || exists d :: IsTop(m, files, d)
  }

  // ... and it is at least v.
  ghost predicate Reaches(m: Entries, files: Files, v: nat) {
    exists d :: IsTop(m, files, d) && v <= VersionOf(files, d)
  }

  ghost predicate LatestIsMax(t: Table, files: Files) {
    forall p | p in t :: HasTop(t[p], files)
  }

  lemma SameVersionSameEntry(t: Table, s: KState, files: Files, loose: set<string>, p: string, d: MountedApexData, e: MountedApexData)
    requires Coupled(t, s, files, loose) && Has(t, p, d) && Has(t, p, e) && VersionOf(files, d) == VersionOf(files, e)
    ensures d == e && d.mountPoint == PackageMountPoint(files[d.fullPath].manifest)
  {
    assert EntryOk(files, p, d) && EntryOk(files, p, e);
    UnsignedInjective(files[d.fullPath].manifest.version, files[e.fullPath].manifest.version);
    assert files[d.fullPath].manifest == files[e.fullPath].manifest;
  }

  // What activating one package leaves of the entries of that package.
  ghost predicate Progress(m: Entries, m': Entries, files: Files) {
    && (HasTop(m, files) ==> HasTop(m', files))
    && (forall w: nat | Reaches(m, files, w) :: Reaches(m', files, w))
  }

  ghost predicate Grows(m: Entries, m': Entries, path: string) {
    m.Keys <= m'.Keys && forall e | e in m' :: e in m || e.fullPath == path
  }

  lemma NoProgress(m: Entries, files: Files, path: string)
    ensures Progress(m, m, files) && Grows(m, m, path)
  {
  }

  /** The cases of activatePackageImpl */

  lemma AlreadyLatest(m: Entries, files: Files, d: MountedApexData)
    requires AtMostOneLatest(m) && d in m && m[d] && HasTop(m, files)
    ensures Reaches(m, files, VersionOf(files, d))
  {
    var e :| IsTop(m, files, e);
    assert e == d;
  }

  lemma OlderMounted(m: Entries, files: Files, d: MountedApexData, e: MountedApexData)
    requires d !in m && e in m && VersionOf(files, e) > VersionOf(files, d)
    ensures Progress(m, m[d := false], files)
    ensures HasTop(m, files) ==> Reaches(m[d := false], files, VersionOf(files, d))
  {
    forall f | IsTop(m, files, f)
      ensures IsTop(m[d := false], files, f) && VersionOf(files, e) <= VersionOf(files, f)
    {
    }
  }

  lemma NewestIsTop(m: Entries, files: Files, d: MountedApexData)
    requires d in m && forall e | e in m :: VersionOf(files, e) <= VersionOf(files, d)
    ensures var m' := OnlyLatest(m, d);
      IsTop(m', files, d) && Reaches(m', files, VersionOf(files, d)) && Progress(m, m', files)
  {
    assert IsTop(OnlyLatest(m, d), files, d);
    forall w: nat | Reaches(m, files, w)
      ensures Reaches(OnlyLatest(m, d), files, w)
    {
      var e :| IsTop(m, files, e) && w <= VersionOf(files, e);
      assert e in m;
    }
  }

  lemma NewestMounted(m: Entries, files: Files, d: MountedApexData)
    requires d !in m && forall e | e in m :: VersionOf(files, e) <= VersionOf(files, d)
    ensures var m' := OnlyLatest(m[d := false], d);
      Reaches(m', files, VersionOf(files, d)) && Progress(m, m', files)
  {
    var m' := OnlyLatest(m[d := false], d);
    NewestIsTop(m[d := false], files, d);
    forall w: nat | Reaches(m, files, w)
      ensures Reaches(m', files, w)
    {
      var e :| IsTop(m, files, e) && w <= VersionOf(files, e);
      assert e in m && IsTop(m', files, d) && w <= VersionOf(files, d);
    }
  }

  lemma MountedNotLatest(t: Table, s: KState, files: Files, loose: set<string>, p: string, d: MountedApexData)
    requires Coupled(t, s, files, loose) && Has(t, p, d) && !t[p][d] && HasTop(t[p], files)
    ensures Reaches(t[p], files, VersionOf(files, d))
    ensures exists e :: e in t[p] && VersionOf(files, e) > VersionOf(files, d)
  {
    var e :| IsTop(t[p], files, e);
    if VersionOf(files, e) == VersionOf(files, d) {
      SameVersionSameEntry(t, s, files, loose, p, d, e);
    }
  }
}
