// What survives a restart of apexd: the table rebuilt from the mounts, compared with the table before.
module Restart {
  import opened Names
  import opened Database
  import opened KernelModel
  import opened Mount
  import opened Coupling
  import opened Versions
  import opened Populate

  ghost predicate PlainNames(files: Files) {
    forall path | path in files :: '@' !in files[path].manifest.name && '/' !in files[path].manifest.name
  }

  function FileOf(s: KState, loopName: string): string {
    if loopName in s.loops then s.loops[loopName].file else ""
  }

  // What resolveMountInfo can tell of a mount.
  function Record(s: KState, mountPoint: string): MountedApexData {
    match Top(s, mountPoint)
    case Some(Tree(path)) => MountedApexData("", path, mountPoint, "")
    case Some(OnLoop(l)) => MountedApexData(l, FileOf(s, l), mountPoint, "")
    case Some(OnDm(n)) =>
      var l := if n in s.dms then s.dms[n] else "";
      MountedApexData(l, FileOf(s, l), mountPoint, n)
    case None => MountedApexData("", "", mountPoint, "")
  }

  // The records are those of the package mounts, each once, in any order.
  ghost predicate Listed(ds: seq<MountedApexData>, s: KState) {
    && (forall d | d in ds :: d.mountPoint in s.mounts && IsPackageMount(d.mountPoint) && d == Record(s, d.mountPoint))
    && (forall m | m in s.mounts && IsPackageMount(m) :: Record(s, m) in ds)
    && (forall i, j | 0 <= i < j < |ds| :: ds[i].mountPoint != ds[j].mountPoint)
  }

  /** The lines of the mount table */

  // The name of a loop device, and the file that /sys/block tells for it.
  predicate LoopTold(sys: Sys, s: KState, loopName: string) {
    var name := PathFileName(loopName);
    && loopName == "/dev/block/" + name && StartsWith(name, "loop")
    && loopName in s.loops && name in sys.backing && sys.backing[name] == s.loops[loopName].file
  }

  // The block device is that of the mount, and what can be read of it agrees with the kernel.
  predicate Told(sys: Sys, s: KState, block: string, mountPoint: string) {
    && (mountPoint in sys.flattened <==> Top(s, mountPoint).Some? && Top(s, mountPoint).value.Tree?)
    && match Top(s, mountPoint)
       case Some(Tree(path)) => sys.flattened[mountPoint] == path
       case Some(OnLoop(l)) => block == l && LoopTold(sys, s, l)
       case Some(OnDm(n)) =>
         var name := PathFileName(block);
         && StartsWith(name, "dm-") && name in sys.dms && sys.dms[name].0 == n && n in s.dms && LoopTold(sys, s, s.dms[n])
         && sys.dms[name].1 != [] && sys.dms[name].1[0] == PathFileName(s.dms[n])
       case None => false
  }

  function MountPointOf(line: string): string {
    ParseMountInfo(line).1
  }

  // The lines name each package mount once, in any order, among any lines for other mounts.
  ghost predicate ShowsMounts(lines: seq<string>, sys: Sys, s: KState) {
    && (forall i | 0 <= i < |lines| && IsPackageMount(MountPointOf(lines[i])) ::
          MountPointOf(lines[i]) in s.mounts && Told(sys, s, ParseMountInfo(lines[i]).0, MountPointOf(lines[i])))
    && (forall m | m in s.mounts && IsPackageMount(m) :: exists i :: 0 <= i < |lines| && MountPointOf(lines[i]) == m)
    && (forall i, j | 0 <= i < j < |lines| && IsPackageMount(MountPointOf(lines[i])) :: MountPointOf(lines[i]) != MountPointOf(lines[j]))
  }

  lemma LoopRecordTold(sys: Sys, s: KState, loopName: string, mountPoint: string, deviceName: string)
    requires LoopTold(sys, s, loopName)
    ensures StartsWith(PathFileName(loopName), "loop")
    ensures LoopRecord(sys, PathFileName(loopName), mountPoint, deviceName)
         == Some(MountedApexData(loopName, FileOf(s, loopName), mountPoint, deviceName))
  {
  }

  lemma LoopIsNotDm(name: string)
    ensures !(StartsWith(name, "dm-") && StartsWith(name, "loop"))
  {
    assert StartsWith(name, "dm-") ==> name[0] == 'd';
  }

  lemma ToldIsResolved(sys: Sys, s: KState, block: string, mountPoint: string)
    requires Told(sys, s, block, mountPoint)
    ensures ResolveMountInfo(sys, block, mountPoint) == Some(Record(s, mountPoint))
  {
    LoopIsNotDm(PathFileName(block));
    match Top(s, mountPoint)
    case Some(OnLoop(l)) => LoopRecordTold(sys, s, l, mountPoint, "");
    case Some(OnDm(n)) => LoopRecordTold(sys, s, s.dms[n], mountPoint, n);
    case _ =>
    hide PathFileName, StartsWith, Top, LoopTold, LoopRecord, FileOf;
  }

  lemma {:induction false} ResolvedMembers(sys: Sys, lines: seq<string>)
    ensures forall d :: d in Resolved(sys, lines) <==> exists i :: 0 <= i < |lines| && RecordOfLine(sys, lines[i]) == Some(d)
  {
    hide RecordOfLine;
    if lines != [] {
      var n := |lines| - 1;
      var init, last := lines[..n], RecordOfLine(sys, lines[n]);
      ResolvedMembers(sys, init);
      forall d
        ensures d in Resolved(sys, lines) <==> exists i :: 0 <= i < |lines| && RecordOfLine(sys, lines[i]) == Some(d)
      {
        assert d in Resolved(sys, lines) <==> d in Resolved(sys, init) || last == Some(d);
        if i :| 0 <= i < |init| && RecordOfLine(sys, init[i]) == Some(d) {
          assert RecordOfLine(sys, lines[i]) == Some(d);
        }
        if i :| 0 <= i < |lines| && RecordOfLine(sys, lines[i]) == Some(d) {
          assert i < n ==> RecordOfLine(sys, init[i]) == Some(d);
        }
      }
    }
  }

  ghost predicate LinesDiffer(sys: Sys, lines: seq<string>) {
    forall i, j | 0 <= i < j < |lines| && RecordOfLine(sys, lines[i]).Some? && RecordOfLine(sys, lines[j]).Some? ::
      RecordOfLine(sys, lines[i]).value.mountPoint != RecordOfLine(sys, lines[j]).value.mountPoint
  }

  lemma {:induction false} ResolvedDiffer(sys: Sys, lines: seq<string>)
    requires LinesDiffer(sys, lines)
    ensures forall i, j | 0 <= i < j < |Resolved(sys, lines)| :: Resolved(sys, lines)[i].mountPoint != Resolved(sys, lines)[j].mountPoint
  {
    hide RecordOfLine;
    if lines != [] {
      var n := |lines| - 1;
      var init, last := lines[..n], RecordOfLine(sys, lines[n]);
      ResolvedDiffer(sys, init);
      ResolvedMembers(sys, init);
      if last.Some? {
        forall k | 0 <= k < |Resolved(sys, init)|
          ensures Resolved(sys, init)[k].mountPoint != last.value.mountPoint
        {
          assert Resolved(sys, init)[k] in Resolved(sys, init);
          var i :| 0 <= i < |init| && RecordOfLine(sys, init[i]) == Some(Resolved(sys, init)[k]);
          assert init[i] == lines[i];
        }
      }
    }
  }

  lemma LineTold(lines: seq<string>, sys: Sys, s: KState, i: nat)
    requires ShowsMounts(lines, sys, s) && i < |lines|
    ensures var m := MountPointOf(lines[i]);
      RecordOfLine(sys, lines[i]) == (if IsPackageMount(m) then Some(Record(s, m)) else None) && (IsPackageMount(m) ==> m in s.mounts)
    ensures Record(s, MountPointOf(lines[i])).mountPoint == MountPointOf(lines[i])
  {
    if IsPackageMount(MountPointOf(lines[i])) {
      ToldIsResolved(sys, s, ParseMountInfo(lines[i]).0, MountPointOf(lines[i]));
    }
    hide Told, ResolveMountInfo, IsPackageMount;
  }

  /** Theorem: whatever their order, and whatever lies between them, the lines give the record of each package mount, once. */
  lemma LinesAreListed(lines: seq<string>, sys: Sys, s: KState)
    requires ShowsMounts(lines, sys, s)
    ensures Listed(Resolved(sys, lines), s)
  {
    ResolvedMembers(sys, lines);
    forall i | 0 <= i < |lines|
      ensures var m := MountPointOf(lines[i]);
        RecordOfLine(sys, lines[i]) == (if IsPackageMount(m) then Some(Record(s, m)) else None) && (IsPackageMount(m) ==> m in s.mounts)
      ensures Record(s, MountPointOf(lines[i])).mountPoint == MountPointOf(lines[i])
    {
      LineTold(lines, sys, s, i);
    }
    hide RecordOfLine, Record, IsPackageMount, ParseMountInfo, Told, Resolved;
    assert LinesDiffer(sys, lines);
    ResolvedDiffer(sys, lines);
    forall m | m in s.mounts && IsPackageMount(m)
      ensures Record(s, m) in Resolved(sys, lines)
    {
      var i :| 0 <= i < |lines| && MountPointOf(lines[i]) == m;
      assert RecordOfLine(sys, lines[i]) == Some(Record(s, m));
    }
  }

  // Every package mount belongs to an entry.
  ghost predicate NoStrays(t: Table, s: KState) {
    forall m | m in s.mounts && IsPackageMount(m) :: OwnedMount(t, m)
  }

  // The version that parseMountPoint reads for an entry.
  function Readable32(v: Version): int {
    if INT32_MIN <= v <= INT32_MAX then v else -1
  }

  ghost predicate RecordOf(files: Files, p: string, d: MountedApexData, r: MountedApexData) {
    && d.fullPath in files
    && r.fullPath == d.fullPath && r.mountPoint == d.mountPoint && r.loopName == d.loopName
    && (r.deviceName == d.deviceName || r.deviceName == "")
    && PackageName(r) == p && ParsedVersion(r) == Readable32(files[d.fullPath].manifest.version)
  }

  lemma BackedRecord(s: KState, d: MountedApexData)
    requires Backed(s, d)
    ensures var r := Record(s, d.mountPoint);
      && r.fullPath == d.fullPath && r.mountPoint == d.mountPoint && r.loopName == d.loopName
      && (r.deviceName == d.deviceName || r.deviceName == "")
  {
  }

  lemma MountPointFacts(m: Manifest)
    requires '@' !in m.name && '/' !in m.name
    ensures IsPackageMount(PackageMountPoint(m))
    ensures forall r: MountedApexData | r.mountPoint == PackageMountPoint(m) ::
              PackageName(r) == m.name && ParsedVersion(r) == Readable32(m.version)
  {
    ParsedPackage(m);
    PackagePathParts(m);
    MountPointsAreNotActivePoints(m, m.name);
    hide ParseMountPoint, ParentPath, IsActiveMountPoint, PackageMountPoint;
  }

  lemma EntryRecord(t: Table, s: KState, files: Files, loose: set<string>, p: string, d: MountedApexData)
    requires PlainNames(files) && Coupled(t, s, files, loose) && Has(t, p, d)
    ensures RecordOf(files, p, d, Record(s, d.mountPoint))
    ensures d.mountPoint in s.mounts && IsPackageMount(d.mountPoint)
  {
    assert EntryOk(files, p, d) && Backed(s, d);
    BackedRecord(s, d);
    hide PackageName, ParsedVersion, IsPackageMount, PackageMountPoint, Record, Coupled;
    MountPointFacts(files[d.fullPath].manifest);
  }

  ghost predicate Before(t: Table, s: KState, files: Files, loose: set<string>, ds: seq<MountedApexData>) {
    PlainNames(files) && Coupled(t, s, files, loose) && NoStrays(t, s) && Listed(ds, s)
  }

  // Records and entries correspond.
  lemma RecordOfEntry(t: Table, s: KState, files: Files, loose: set<string>, ds: seq<MountedApexData>, p: string, d: MountedApexData)
    requires Before(t, s, files, loose, ds) && Has(t, p, d)
    ensures Record(s, d.mountPoint) in ds && RecordOf(files, p, d, Record(s, d.mountPoint))
  {
    EntryRecord(t, s, files, loose, p, d);
  }

  lemma EntryOfRecord(t: Table, s: KState, files: Files, loose: set<string>, ds: seq<MountedApexData>, r: MountedApexData)
      returns (p: string, d: MountedApexData)
    requires Before(t, s, files, loose, ds) && r in ds
    ensures Has(t, p, d) && r == Record(s, d.mountPoint) && RecordOf(files, p, d, r) && EntryOk(files, p, d)
  {
    assert OwnedMount(t, r.mountPoint);
    p, d :| Has(t, p, d) && d.mountPoint == r.mountPoint;
    RecordOfEntry(t, s, files, loose, ds, p, d);
  }

  /** Theorem: rebuilding from the mounts of a coupled state, no CHECK fails. */
  lemma RecordsAreApart(t: Table, s: KState, files: Files, loose: set<string>, ds: seq<MountedApexData>)
    requires Before(t, s, files, loose, ds)
    ensures AllApart(ds)
  {
    forall i, j | 0 <= i < j < |ds|
      ensures Apart(ds[i], ds[j])
    {
      TwoRecords(t, s, files, loose, ds, i, j);
    }
  }

  lemma TwoRecords(t: Table, s: KState, files: Files, loose: set<string>, ds: seq<MountedApexData>, i: nat, j: nat)
    requires Before(t, s, files, loose, ds) && i < j < |ds|
    ensures Apart(ds[i], ds[j])
  {
    var p, d := EntryOfRecord(t, s, files, loose, ds, ds[i]);
    var q, e := EntryOfRecord(t, s, files, loose, ds, ds[j]);
    RecordsDiffer(ds, s, i, j);
    EntriesClash(t, s, files, loose, p, d, q, e);
    RecordsApart(files, p, d, ds[i], q, e, ds[j]);
  }

  lemma RecordsDiffer(ds: seq<MountedApexData>, s: KState, i: nat, j: nat)
    requires Listed(ds, s) && i < j < |ds|
    ensures ds[i].mountPoint != ds[j].mountPoint
  {
  }

  lemma EntriesClash(t: Table, s: KState, files: Files, loose: set<string>, p: string, d: MountedApexData, q: string, e: MountedApexData)
    requires Coupled(t, s, files, loose) && Has(t, p, d) && Has(t, q, e) && d.mountPoint != e.mountPoint
    ensures !Clash(d, e)
  {
    CoupledIsUnique(t, s, files, loose);
    assert (p, d) in Pairs(t) && (q, e) in Pairs(t);
  }

  lemma RecordsApart(files: Files, p: string, d: MountedApexData, r: MountedApexData, q: string, e: MountedApexData, r': MountedApexData)
    requires RecordOf(files, p, d, r) && EntryOk(files, p, d) && RecordOf(files, q, e, r') && EntryOk(files, q, e)
    requires d.mountPoint != e.mountPoint && !Clash(d, e)
    ensures Apart(r, r')
  {
    hide PackageName, ParsedVersion, PackageMountPoint, PackageId;
    var m, n := files[d.fullPath].manifest, files[e.fullPath].manifest;
    assert p == q && m.version == n.version ==> m == n;
  }

  /** The relation that both tables describe */

  datatype Row = Row(package: string, fullPath: string, mountPoint: string, latest: bool)

  function RowOf(t: Table, x: (string, MountedApexData)): Row {
    Row(x.0, x.1.fullPath, x.1.mountPoint, Latest(t, x.0, x.1))
  }

  function Rows(t: Table): set<Row> {
    set x | x in Pairs(t) :: RowOf(t, x)
  }

  lemma RowExists(t: Table, p: string, d: MountedApexData)
    requires Has(t, p, d)
    ensures Row(p, d.fullPath, d.mountPoint, t[p][d]) in Rows(t)
  {
    assert (p, d) in Pairs(t);
    assert RowOf(t, (p, d)) in Rows(t);
  }

  // The highest version of each package is one that parseMountPoint reads as positive.
  ghost predicate VersionsReadable(t: Table, files: Files) {
    forall p, d | Latest(t, p, d) && d.fullPath in files :: 0 < files[d.fullPath].manifest.version <= 0x7fff_ffff
  }

  ghost predicate SameFlag(t: Table, u: Table, s: KState, p: string, d: MountedApexData) {
    Has(u, p, Record(s, d.mountPoint)) && (Latest(u, p, Record(s, d.mountPoint)) <==> Latest(t, p, d))
  }

  lemma RestoredHas(t: Table, u: Table, s: KState, files: Files, loose: set<string>, ds: seq<MountedApexData>, p: string, d: MountedApexData)
    requires Before(t, s, files, loose, ds) && Restored(u, ds) && Has(t, p, d)
    ensures var r := Record(s, d.mountPoint);
      && RecordOf(files, p, d, r) && r in ds && Has(u, p, r) && (Latest(u, p, r) <==> Highest(ds, r))
  {
    RecordOfEntry(t, s, files, loose, ds, p, d);
  }

  // The latest entry of a package is rebuilt as such exactly if its version can be read.
  lemma LatestRebuilt(t: Table, u: Table, s: KState, files: Files, loose: set<string>, ds: seq<MountedApexData>, p: string, d: MountedApexData)
    requires Before(t, s, files, loose, ds) && LatestIsMax(t, files) && Restored(u, ds) && Latest(t, p, d)
    ensures d.fullPath in files
    ensures Latest(u, p, Record(s, d.mountPoint)) <==> 0 < files[d.fullPath].manifest.version <= 0x7fff_ffff
  {
    RestoredHas(t, u, s, files, loose, ds, p, d);
    hide *;
    if 0 < files[d.fullPath].manifest.version <= INT32_MAX {
      LatestRecordIsHighest(t, s, files, loose, ds, p, d);
    } else {
      UnreadableIsNotHighest(files, p, d, Record(s, d.mountPoint), ds);
    }
  }

  lemma UnreadableIsNotHighest(files: Files, p: string, d: MountedApexData, r: MountedApexData, ds: seq<MountedApexData>)
    requires RecordOf(files, p, d, r) && !(0 < files[d.fullPath].manifest.version <= INT32_MAX)
    ensures !Highest(ds, r)
  {
    hide PackageName, ParsedVersion;
  }

  lemma LatestRecordIsHighest(t: Table, s: KState, files: Files, loose: set<string>, ds: seq<MountedApexData>, p: string, d: MountedApexData)
    requires Before(t, s, files, loose, ds) && LatestIsMax(t, files) && Latest(t, p, d) && RecordOf(files, p, d, Record(s, d.mountPoint))
    requires 0 < files[d.fullPath].manifest.version <= INT32_MAX
    ensures Highest(ds, Record(s, d.mountPoint))
  {
    var r := Record(s, d.mountPoint);
    hide Before, LatestIsMax, PackageName, ParsedVersion, Record, Has, Latest, PackageMountPoint, PackageId;
    forall e | e in ds && PackageName(e) == PackageName(r)
      ensures ParsedVersion(e) <= ParsedVersion(r)
    {
      var q, f := EntryOfRecord(t, s, files, loose, ds, e);
      BeforeIsCoupled(t, s, files, loose, ds);
      LatestIsHighest(t, s, files, loose, p, d, f);
    }
  }

  lemma BeforeIsCoupled(t: Table, s: KState, files: Files, loose: set<string>, ds: seq<MountedApexData>)
    requires Before(t, s, files, loose, ds)
    ensures Coupled(t, s, files, loose)
  {
  }

  lemma LatestIsHighest(t: Table, s: KState, files: Files, loose: set<string>, p: string, d: MountedApexData, e: MountedApexData)
    requires Coupled(t, s, files, loose) && LatestIsMax(t, files) && Latest(t, p, d) && Has(t, p, e)
    ensures VersionOf(files, e) <= VersionOf(files, d)
  {
    var f :| IsTop(t[p], files, f);
    assert f == d;
  }

  lemma LatestAbove(t: Table, s: KState, files: Files, loose: set<string>, p: string, d: MountedApexData) returns (f: MountedApexData)
    requires Coupled(t, s, files, loose) && LatestIsMax(t, files) && Has(t, p, d) && !Latest(t, p, d)
    ensures Latest(t, p, f) && VersionOf(files, f) > VersionOf(files, d)
  {
    f :| IsTop(t[p], files, f);
    if VersionOf(files, f) == VersionOf(files, d) {
      SameVersionSameEntry(t, s, files, loose, p, d, f);
    }
  }

  // No other entry is rebuilt as the latest beside a readable one.
  lemma OthersRebuilt(t: Table, u: Table, s: KState, files: Files, loose: set<string>, ds: seq<MountedApexData>, p: string, d: MountedApexData)
    requires Before(t, s, files, loose, ds) && LatestIsMax(t, files) && Restored(u, ds) && VersionsReadable(t, files)
    requires Has(t, p, d)
    ensures SameFlag(t, u, s, p, d)
  {
    RestoredHas(t, u, s, files, loose, ds, p, d);
    var r := Record(s, d.mountPoint);
    if Latest(t, p, d) {
      LatestRebuilt(t, u, s, files, loose, ds, p, d);
    } else {
      var f := LatestAbove(t, s, files, loose, p, d);
      RestoredHas(t, u, s, files, loose, ds, p, f);
      var top := Record(s, f.mountPoint);
      assert ParsedVersion(top) > ParsedVersion(r) && top in ds;
    }
  }

  /** Theorem: after a restart the table lists the same packages, files and mount points, and the same versions
      as latest, exactly if the latest version of each package is between 1 and INT_MAX. */
  lemma RestartRecovery(t: Table, u: Table, s: KState, files: Files, loose: set<string>, ds: seq<MountedApexData>)
    requires Before(t, s, files, loose, ds) && LatestIsMax(t, files) && Restored(u, ds)
    ensures Rows(u) == Rows(t) <==> VersionsReadable(t, files)
  {
    if VersionsReadable(t, files) {
      AllRowsRebuilt(t, u, s, files, loose, ds);
    } else {
      var p, d :| Latest(t, p, d) && d.fullPath in files && !(0 < files[d.fullPath].manifest.version <= INT32_MAX);
      LatestRebuilt(t, u, s, files, loose, ds, p, d);
      RowExists(t, p, d);
      RowLost(t, u, s, files, loose, ds, p, d);
    }
  }

  lemma AllRowsRebuilt(t: Table, u: Table, s: KState, files: Files, loose: set<string>, ds: seq<MountedApexData>)
    requires Before(t, s, files, loose, ds) && LatestIsMax(t, files) && Restored(u, ds) && VersionsReadable(t, files)
    ensures Rows(u) == Rows(t)
  {
    forall row | row in Rows(t)
      ensures row in Rows(u)
    {
      var x :| x in Pairs(t) && row == RowOf(t, x);
      OthersRebuilt(t, u, s, files, loose, ds, x.0, x.1);
      RecordOfEntry(t, s, files, loose, ds, x.0, x.1);
      RowExists(u, x.0, Record(s, x.1.mountPoint));
    }
    forall row | row in Rows(u)
      ensures row in Rows(t)
    {
      var x :| x in Pairs(u) && row == RowOf(u, x);
      assert Has(u, x.0, x.1);
      var p, d := EntryOfRecord(t, s, files, loose, ds, x.1);
      OthersRebuilt(t, u, s, files, loose, ds, p, d);
      RowExists(t, p, d);
    }
  }

  lemma RowLost(t: Table, u: Table, s: KState, files: Files, loose: set<string>, ds: seq<MountedApexData>, p: string, d: MountedApexData)
    requires Before(t, s, files, loose, ds) && Restored(u, ds) && Latest(t, p, d) && !Latest(u, p, Record(s, d.mountPoint))
    ensures Row(p, d.fullPath, d.mountPoint, true) !in Rows(u)
  {
    forall x | x in Pairs(u)
      ensures RowOf(u, x) != Row(p, d.fullPath, d.mountPoint, true)
    {
      if x.1.mountPoint == d.mountPoint {
        OneRecordPerMount(u, s, ds, x.0, x.1, d.mountPoint);
      }
    }
  }

  lemma OneRecordPerMount(u: Table, s: KState, ds: seq<MountedApexData>, p: string, r: MountedApexData, mountPoint: string)
    requires Listed(ds, s) && Restored(u, ds) && Has(u, p, r) && r.mountPoint == mountPoint
    ensures r == Record(s, mountPoint)
  {
  }

  lemma BackedRecordBack(s: KState, d: MountedApexData)
    requires Backed(s, d)
    ensures Backed(s, Record(s, d.mountPoint))
    ensures forall p :: Bound(s, p, d) <==> Bound(s, p, Record(s, d.mountPoint))
  {
  }

  lemma RebuiltEntry(t: Table, u: Table, s: KState, files: Files, loose: set<string>, ds: seq<MountedApexData>, q: string, r: MountedApexData)
      returns (d: MountedApexData)
    requires Before(t, s, files, loose, ds) && LatestIsMax(t, files) && Restored(u, ds) && VersionsReadable(t, files) && Has(u, q, r)
    ensures Has(t, q, d) && r == Record(s, d.mountPoint) && VersionOf(files, r) == VersionOf(files, d)
    ensures EntryOk(files, q, r) && Backed(s, r) && (Latest(u, q, r) <==> Latest(t, q, d)) && (Latest(u, q, r) && q !in loose ==> Bound(s, q, r))
  {
    var p;
    p, d := EntryOfRecord(t, s, files, loose, ds, r);
    OthersRebuilt(t, u, s, files, loose, ds, p, d);
    BackedRecordBack(s, d);
  }

  /** Theorem: then the rebuilt table is coupled with the kernel again, and every later operation may go on from it. */
  lemma RestartCoupled(t: Table, u: Table, s: KState, files: Files, loose: set<string>, ds: seq<MountedApexData>)
    requires Before(t, s, files, loose, ds) && LatestIsMax(t, files) && Restored(u, ds) && EachAtMostOneLatest(u)
    requires VersionsReadable(t, files)
    ensures Coupled(u, s, files, loose) && LatestIsMax(u, files)
  {
    forall q, r | Has(u, q, r)
      ensures EntryOk(files, q, r) && Backed(s, r) && (Latest(u, q, r) && q !in loose ==> Bound(s, q, r))
    {
      var d := RebuiltEntry(t, u, s, files, loose, ds, q, r);
    }
    forall q, r, q', r' | Has(u, q, r) && Has(u, q', r') && r.mountPoint == r'.mountPoint
      ensures q == q' && r == r'
    {
      OneRecordPerMount(u, s, ds, q, r, r.mountPoint);
      OneRecordPerMount(u, s, ds, q', r', r.mountPoint);
    }
    forall p | p in u
      ensures HasTop(u[p], files)
    {
      RebuiltTop(t, u, s, files, loose, ds, p);
    }
  }

  lemma RebuiltTop(t: Table, u: Table, s: KState, files: Files, loose: set<string>, ds: seq<MountedApexData>, p: string)
    requires Before(t, s, files, loose, ds) && LatestIsMax(t, files) && Restored(u, ds) && VersionsReadable(t, files) && p in u
    ensures HasTop(u[p], files)
  {
    if r :| r in u[p] {
      var d := RebuiltEntry(t, u, s, files, loose, ds, p, r);
      var top :| IsTop(t[p], files, top);
      OthersRebuilt(t, u, s, files, loose, ds, p, top);
      RecordOfEntry(t, s, files, loose, ds, p, top);
      var rebuilt := Record(s, top.mountPoint);
      forall e | e in u[p]
        ensures VersionOf(files, e) <= VersionOf(files, rebuilt)
      {
        assert Has(u, p, e);
        var f := RebuiltEntry(t, u, s, files, loose, ds, p, e);
      }
      assert IsTop(u[p], files, rebuilt);
    } else {
      assert u[p] == map[];
    }
  }

  /** Theorem: apexd restarts on the kernel that it left.  From the mount table, in any line order, the table is rebuilt
      without any CHECK failing; it describes the same packages, files, mount points and latest versions exactly
      if the latest version of each package is between 1 and INT_MAX, and is then coupled with the kernel again. */
  method RestartDaemon(db: MountedApexDatabase, sys: Sys, lines: seq<string>, ghost t: Table, ghost s: KState, ghost files: Files, ghost loose: set<string>)
    returns (aborted: bool)
    requires db.mounted == map[] && ShowsMounts(lines, sys, s)
    requires PlainNames(files) && Coupled(t, s, files, loose) && NoStrays(t, s)
    modifies db
    ensures !aborted && db.Consistent()
    ensures LatestIsMax(t, files) ==> (Rows(db.mounted) == Rows(t) <==> VersionsReadable(t, files))
    ensures LatestIsMax(t, files) && VersionsReadable(t, files) ==> Coupled(db.mounted, s, files, loose) && LatestIsMax(db.mounted, files)
  {
    LinesAreListed(lines, sys, s);
    ghost var ds := Resolved(sys, lines);
    assert Before(t, s, files, loose, ds);
    hide *;
    RecordsAreApart(t, s, files, loose, ds);
    aborted := PopulateFromMounts(db, sys, lines);
    ConsistentTable(db);
    if LatestIsMax(t, files) {
      RestartRecovery(t, db.mounted, s, files, loose, ds);
      if VersionsReadable(t, files) {
        RestartCoupled(t, db.mounted, s, files, loose, ds);
      }
    }
  }

  lemma ConsistentTable(db: MountedApexDatabase)
    requires db.Consistent()
    ensures EachAtMostOneLatest(db.mounted)
  {
  }
}
