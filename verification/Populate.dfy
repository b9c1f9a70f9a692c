// Rebuilding the table from the mount table after apexd restarts (apex_database.cpp).
module Populate {
  import opened Names
  import opened Database
  import opened Coupling

  function PackageName(d: MountedApexData): string {
    ParseMountPoint(d.mountPoint).0
  }

  function ParsedVersion(d: MountedApexData): int {
    ParseMountPoint(d.mountPoint).1
  }

  /** resolveMountInfo */

  const DEV_BLOCK := "/dev/block/"

  // What it reads under /sys/block and of the builtin directories.
  datatype Sys = Sys(
    flattened: map<string, string>,           // for a mount point, the flattened package with the same inode
    backing: map<string, string>,             // the file of a loop device
    dms: map<string, (string, seq<string>)>)  // the dm name and the slaves of a dm device

  function LoopRecord(sys: Sys, name: string, mountPoint: string, deviceName: string): Option<MountedApexData> {
    if name in sys.backing then Some(MountedApexData(DEV_BLOCK + name, sys.backing[name], mountPoint, deviceName)) else None
  }

  function ResolveMountInfo(sys: Sys, block: string, mountPoint: string): (r: Option<MountedApexData>)
    ensures r.Some? ==> r.value.mountPoint == mountPoint
  {
    var name := PathFileName(block);
    if mountPoint in sys.flattened then Some(MountedApexData("", sys.flattened[mountPoint], mountPoint, ""))
    else if StartsWith(name, "loop") then LoopRecord(sys, name, mountPoint, "")
    else if StartsWith(name, "dm-") && name in sys.dms then
      var (deviceName, slaves) := sys.dms[name];
      if slaves == [] || !StartsWith(slaves[0], "loop") then None else LoopRecord(sys, slaves[0], mountPoint, deviceName)
    else None
  }

  predicate IsPackageMount(mountPoint: string) {
    ParentPath(mountPoint) == APEX_ROOT && !IsActiveMountPoint(mountPoint)
  }

  // What a line of the mount table tells, unless it is skipped.
  function RecordOfLine(sys: Sys, line: string): Option<MountedApexData> {
    var info := ParseMountInfo(line);
    if IsPackageMount(info.1) then ResolveMountInfo(sys, info.0, info.1) else None
  }

  function Resolved(sys: Sys, lines: seq<string>): seq<MountedApexData> {
    if lines == [] then []
    else
      var init, last := Resolved(sys, lines[..|lines| - 1]), RecordOfLine(sys, lines[|lines| - 1]);
      if last.Some? then init + [last.value] else init
  }

  /** The table that the records make */

  ghost predicate Entered(t: Table, ds: seq<MountedApexData>) {
    forall p, d :: Has(t, p, d) <==> d in ds && PackageName(d) == p
  }

  // The highest parsed version, which must be positive.
  ghost predicate Highest(ds: seq<MountedApexData>, d: MountedApexData) {
    ParsedVersion(d) > 0 && forall e | e in ds && PackageName(e) == PackageName(d) :: ParsedVersion(e) <= ParsedVersion(d)
  }

  ghost predicate Restored(t: Table, ds: seq<MountedApexData>) {
    Entered(t, ds) && forall p, d :: Latest(t, p, d) <==> d in ds && PackageName(d) == p && Highest(ds, d)
  }

  // Two records that AddMountedApex does not accept together.
  predicate Collide(d: MountedApexData, e: MountedApexData) {
    d == e || Clash(d, e)
  }

  ghost predicate AnyCollide(ds: seq<MountedApexData>) {
    exists i, j :: 0 <= i < j < |ds| && Collide(ds[i], ds[j])
  }

  // No two records claim the same thing.
  predicate Apart(d: MountedApexData, e: MountedApexData) {
    && d.mountPoint != e.mountPoint && !Clash(d, e)
    && (PackageName(d) == PackageName(e) ==>
        d.fullPath != e.fullPath && (ParsedVersion(d) != ParsedVersion(e) || ParsedVersion(d) <= 0))
  }

  ghost predicate AllApart(ds: seq<MountedApexData>) {
    forall i, j | 0 <= i < j < |ds| :: Apart(ds[i], ds[j])
  }

  function Known(active: map<string, int>, p: string): int {
    if p in active then active[p] else 0
  }

  // activeVersions holds the highest parsed version of each package, or 0.
  ghost predicate Tracks(active: map<string, int>, ds: seq<MountedApexData>) {
    && (forall p :: Known(active, p) >= 0)
    && (forall d | d in ds :: ParsedVersion(d) <= Known(active, PackageName(d)))
    && (forall p | Known(active, p) > 0 :: exists d :: d in ds && PackageName(d) == p && ParsedVersion(d) == Known(active, p))
  }

  lemma ApartFromEarlier(ds: seq<MountedApexData>, d: MountedApexData)
    requires AllApart(ds + [d])
    ensures AllApart(ds) && d !in ds && forall e | e in ds :: Apart(e, d)
    ensures forall e :: e in ds + [d] <==> e in ds || e == d
  {
    var all := ds + [d];
    forall i | 0 <= i < |ds|
      ensures Apart(ds[i], d)
    {
      assert all[i] == ds[i] && all[|ds|] == d;
    }
    assert forall i, j | 0 <= i < j < |ds| :: all[i] == ds[i] && all[j] == ds[j];
  }

  lemma OneMoreCollides(ds: seq<MountedApexData>, d: MountedApexData)
    ensures AnyCollide(ds + [d]) <==> AnyCollide(ds) || exists e :: e in ds && Collide(e, d)
  {
    var all := ds + [d];
    assert forall i | 0 <= i < |ds| :: all[i] == ds[i];
    if e :| e in ds && Collide(e, d) {
      var i :| 0 <= i < |ds| && ds[i] == e;
      assert Collide(all[i], all[|ds|]);
    }
    if i, j :| 0 <= i < j < |ds| && Collide(ds[i], ds[j]) {
      assert Collide(all[i], all[j]);
    }
    if i, j :| 0 <= i < j < |all| && Collide(all[i], all[j]) {
      assert j < |ds| ==> Collide(ds[i], ds[j]);
      assert j == |ds| ==> ds[i] in ds && Collide(ds[i], d);
    }
  }

  lemma ApartIsNoCollision(ds: seq<MountedApexData>)
    ensures AllApart(ds) ==> !AnyCollide(ds)
  {
  }

  // The checks of AddMountedApex fail exactly on a collision.
  lemma AddChecks(t: Table, ds: seq<MountedApexData>, d: MountedApexData)
    requires Entered(t, ds) && EachAtMostOneLatest(t) && UniqueLoopDm(t)
    ensures var p, t' := PackageName(d), WithEntry(t, PackageName(d), d, false);
      !Has(t, p, d) && EachAtMostOneLatest(t') && UniqueLoopDm(t') <==> !exists e :: e in ds && Collide(e, d)
  {
    hide PackageName;
    var p, t' := PackageName(d), WithEntry(t, PackageName(d), d, false);
    if Has(t, p, d) {
      assert d in ds && Collide(d, d);
    } else {
      EntriesWith(t, p, d);
      assert forall x :: x in Pairs(t) <==> Has(t, x.0, x.1);
      assert forall x :: x in Pairs(t') <==> Has(t', x.0, x.1);
      if e :| e in ds && Collide(e, d) {
        assert (PackageName(e), e) in Pairs(t') && (p, d) in Pairs(t');
      }
    }
  }

  lemma AddEnters(t: Table, ds: seq<MountedApexData>, d: MountedApexData)
    requires Entered(t, ds) && d !in ds
    ensures Entered(WithEntry(t, PackageName(d), d, false), ds + [d])
  {
    hide PackageName;
    assert !Has(t, PackageName(d), d);
    EntriesWith(t, PackageName(d), d);
  }

  lemma SetLatestEnters(t: Table, ds: seq<MountedApexData>, p: string, e: MountedApexData)
    requires Entered(t, ds)
    ensures Entered(t[p := OnlyLatest(EntriesOf(t, p), e)], ds)
  {
    hide PackageName;
    var u := t[p := OnlyLatest(EntriesOf(t, p), e)];
    assert forall q, f :: Has(u, q, f) <==> Has(t, q, f);
  }

  // No other record of the package has that path.
  lemma OnlyOneOfPath(ds: seq<MountedApexData>, t: Table, d: MountedApexData)
    requires Entered(t, ds + [d]) && AllApart(ds + [d])
    ensures IsLeast(Matching(EntriesOf(t, PackageName(d)), d.fullPath), d)
  {
    hide PackageName, ParsedVersion, AllApart;
    ApartFromEarlier(ds, d);
    assert Has(t, PackageName(d), d);
    forall e | e in Matching(EntriesOf(t, PackageName(d)), d.fullPath)
      ensures e == d
    {
      assert Has(t, PackageName(d), e);
    }
  }

  lemma HighestNow(ds: seq<MountedApexData>, d: MountedApexData, active: map<string, int>)
    requires Tracks(active, ds) && Known(active, PackageName(d)) < ParsedVersion(d)
    ensures Highest(ds + [d], d)
    ensures forall e | e in ds && e != d ::
              Highest(ds + [d], e) <==> PackageName(e) != PackageName(d) && Highest(ds, e)
  {
    hide PackageName, ParsedVersion;
    assert d in ds + [d];
    assert forall e | e in ds :: e in ds + [d];
  }

  lemma NewHighest(t: Table, ds: seq<MountedApexData>, d: MountedApexData, active: map<string, int>)
    requires Restored(t, ds) && Tracks(active, ds) && AllApart(ds + [d])
    requires Known(active, PackageName(d)) < ParsedVersion(d)
    ensures var p, t' := PackageName(d), WithEntry(t, PackageName(d), d, false);
      Restored(t'[p := OnlyLatest(EntriesOf(t', p), d)], ds + [d])
  {
    HighestNow(ds, d, active);
    ApartFromEarlier(ds, d);
    LatestAdded(t, PackageName(d), d);
    hide PackageName, ParsedVersion, AllApart, Highest, Tracks, Apart, Known, Has, Latest, WithEntry, OnlyLatest, EntriesOf;
  }

  lemma LatestAdded(t: Table, p: string, d: MountedApexData)
    ensures var t' := WithEntry(t, p, d, false);
      var u := t'[p := OnlyLatest(EntriesOf(t', p), d)];
      && (forall q, e :: Has(u, q, e) <==> Has(t, q, e) || (q == p && e == d))
      && (forall q, e :: Latest(u, q, e) <==> if q == p then e == d else Latest(t, q, e))
  {
  }

  lemma TracksNewHighest(active: map<string, int>, ds: seq<MountedApexData>, d: MountedApexData)
    requires Tracks(active, ds) && Known(active, PackageName(d)) < ParsedVersion(d)
    ensures Tracks(active[PackageName(d) := ParsedVersion(d)], ds + [d])
  {
    hide PackageName, ParsedVersion;
    var p := PackageName(d);
    var active' := active[p := ParsedVersion(d)];
    assert forall q :: Known(active', q) == if q == p then ParsedVersion(d) else Known(active, q);
    assert d in ds + [d];
    forall q | Known(active', q) > 0
      ensures exists e :: e in ds + [d] && PackageName(e) == q && ParsedVersion(e) == Known(active', q)
    {
      if q != p {
        var e :| e in ds && PackageName(e) == q && ParsedVersion(e) == Known(active, q);
        assert e in ds + [d];
      }
    }
  }

  lemma SameHighest(ds: seq<MountedApexData>, d: MountedApexData, active: map<string, int>)
    requires Tracks(active, ds) && AllApart(ds + [d]) && Known(active, PackageName(d)) >= ParsedVersion(d)
    ensures !Highest(ds + [d], d) && forall e | e in ds :: Highest(ds + [d], e) <==> Highest(ds, e)
  {
    hide PackageName, ParsedVersion, AllApart;
    ApartFromEarlier(ds, d);
    var p := PackageName(d);
    if ParsedVersion(d) > 0 {
      var e :| e in ds && PackageName(e) == p && ParsedVersion(e) == Known(active, p);
      assert Apart(e, d) && ParsedVersion(e) > ParsedVersion(d);
    }
    assert forall e | e in ds && PackageName(e) == p && Highest(ds, e) :: ParsedVersion(e) >= Known(active, p);
  }

  lemma NotHighest(t: Table, ds: seq<MountedApexData>, d: MountedApexData, active: map<string, int>)
    requires Restored(t, ds) && Tracks(active, ds) && AllApart(ds + [d])
    requires Known(active, PackageName(d)) >= ParsedVersion(d)
    ensures Restored(WithEntry(t, PackageName(d), d, false), ds + [d])
  {
    SameHighest(ds, d, active);
    ApartFromEarlier(ds, d);
    hide PackageName, ParsedVersion, AllApart, Highest, Tracks, Apart, AtMostOneLatest, EachAtMostOneLatest;
    assert !Has(t, PackageName(d), d);
    EntriesWith(t, PackageName(d), d);
  }

  lemma TracksNotHighest(active: map<string, int>, ds: seq<MountedApexData>, d: MountedApexData)
    requires Tracks(active, ds) && Known(active, PackageName(d)) >= ParsedVersion(d)
    ensures Tracks(active, ds + [d])
  {
    hide PackageName, ParsedVersion;
    forall q | Known(active, q) > 0
      ensures exists e :: e in ds + [d] && PackageName(e) == q && ParsedVersion(e) == Known(active, q)
    {
      var e :| e in ds && PackageName(e) == q && ParsedVersion(e) == Known(active, q);
      assert e in ds + [d];
    }
  }

  lemma ResolvedNext(sys: Sys, lines: seq<string>, i: nat)
    requires i < |lines|
    ensures var init, last := Resolved(sys, lines[..i]), RecordOfLine(sys, lines[i]);
      Resolved(sys, lines[..i + 1]) == if last.Some? then init + [last.value] else init
  {
    assert lines[..i + 1][..i] == lines[..i];
  }

  lemma {:induction false} ResolvedPrefix(sys: Sys, lines: seq<string>, i: nat)
    requires i <= |lines|
    ensures Resolved(sys, lines[..i]) <= Resolved(sys, lines)
    decreases |lines| - i
  {
    hide RecordOfLine;
    if i < |lines| {
      ResolvedNext(sys, lines, i);
      ResolvedPrefix(sys, lines, i + 1);
    } else {
      assert lines[..i] == lines;
    }
  }

  lemma PrefixCollides(ds: seq<MountedApexData>, prefix: seq<MountedApexData>)
    requires AnyCollide(prefix) && prefix <= ds
    ensures AnyCollide(ds)
  {
    var i, j :| 0 <= i < j < |prefix| && Collide(prefix[i], prefix[j]);
    assert Collide(ds[i], ds[j]);
  }

  // What the loop has made of these records.
  ghost predicate Loaded(t: Table, active: map<string, int>, ds: seq<MountedApexData>) {
    && EachAtMostOneLatest(t) && UniqueLoopDm(t) && !AnyCollide(ds)
    && Entered(t, ds) && Tracks(active, ds) && (AllApart(ds) ==> Restored(t, ds))
  }

  lemma LoadedHighest(t: Table, active: map<string, int>, ds: seq<MountedApexData>, d: MountedApexData, u: Table)
    requires Loaded(t, active, ds) && !AnyCollide(ds + [d]) && d !in ds && Known(active, PackageName(d)) < ParsedVersion(d)
    requires EachAtMostOneLatest(u) && UniqueLoopDm(u)
    requires var p, t' := PackageName(d), WithEntry(t, PackageName(d), d, false);
      forall e | IsLeast(Matching(EntriesOf(t', p), d.fullPath), e) :: u == t'[p := OnlyLatest(EntriesOf(t', p), e)]
    ensures Loaded(u, active[PackageName(d) := ParsedVersion(d)], ds + [d])
  {
    hide PackageName, ParsedVersion, AnyCollide, Restored, AllApart, Tracks, EachAtMostOneLatest, UniqueLoopDm, WithEntry, Entered, IsLeast;
    var p, t' := PackageName(d), WithEntry(t, PackageName(d), d, false);
    AddEnters(t, ds, d);
    EntryThere(t', t, p, d);
    HasLeast(Matching(EntriesOf(t', p), d.fullPath));
    var e :| IsLeast(Matching(EntriesOf(t', p), d.fullPath), e);
    SetLatestEnters(t', ds + [d], p, e);
    TracksNewHighest(active, ds, d);
    if AllApart(ds + [d]) {
      ApartFromEarlier(ds, d);
      OnlyOneOfPath(ds, t', d);
      NewHighest(t, ds, d, active);
    }
  }

  lemma LoadedNotHighest(t: Table, active: map<string, int>, ds: seq<MountedApexData>, d: MountedApexData)
    requires Loaded(t, active, ds) && !AnyCollide(ds + [d]) && d !in ds && Known(active, PackageName(d)) >= ParsedVersion(d)
    requires var u := WithEntry(t, PackageName(d), d, false); EachAtMostOneLatest(u) && UniqueLoopDm(u)
    ensures Loaded(WithEntry(t, PackageName(d), d, false), active, ds + [d])
  {
    hide PackageName, ParsedVersion, AnyCollide, Restored, AllApart, Tracks, EachAtMostOneLatest, UniqueLoopDm, WithEntry, Entered;
    AddEnters(t, ds, d);
    TracksNotHighest(active, ds, d);
    if AllApart(ds + [d]) {
      ApartFromEarlier(ds, d);
      NotHighest(t, ds, d, active);
    }
  }

  lemma LoadedChecks(t: Table, active: map<string, int>, ds: seq<MountedApexData>, d: MountedApexData)
    requires Loaded(t, active, ds)
    ensures var p, t' := PackageName(d), WithEntry(t, PackageName(d), d, false);
      !Has(t, p, d) && EachAtMostOneLatest(t') && UniqueLoopDm(t') <==> !AnyCollide(ds + [d])
    ensures !AnyCollide(ds + [d]) ==> d !in ds
  {
    AddChecks(t, ds, d);
    OneMoreCollides(ds, d);
    assert d in ds ==> Collide(d, d);
    hide PackageName, AnyCollide, WithEntry, EachAtMostOneLatest, UniqueLoopDm;
  }

  // The part of the loop that concerns the database, for one record.
  method Restore(db: MountedApexDatabase, active: map<string, int>, mountPoint: string, d: MountedApexData, ghost ds: seq<MountedApexData>)
    returns (ok: bool, active': map<string, int>)
    requires d.mountPoint == mountPoint && Loaded(db.mounted, active, ds)
    modifies db
    ensures ok <==> !AnyCollide(ds + [d])
    ensures ok ==> Loaded(db.mounted, active', ds + [d])
  {
    var parsed := ParseMountPoint(mountPoint);
    var p, version := parsed.0, parsed.1;
    assert p == PackageName(d) && version == ParsedVersion(d);
    ghost var t := db.mounted;
    LoadedChecks(t, active, ds, d);
    active' := active;
    hide Loaded, PackageName, ParsedVersion, ParseMountPoint, AnyCollide, Has, WithEntry, EachAtMostOneLatest, UniqueLoopDm;
    ok := db.AddMountedApex(p, false, d);
    if !ok {
      return;
    }
    if Known(active, p) < version {
      EntryThere(db.mounted, t, p, d);
      active' := active[p := version];
      ok := db.SetLatest(p, d.fullPath);
      LoadedHighest(t, active, ds, d, db.mounted);
    } else {
      LoadedNotHighest(t, active, ds, d);
    }
  }

  lemma EntryThere(t': Table, t: Table, p: string, d: MountedApexData)
    requires t' == WithEntry(t, p, d, false)
    ensures Matching(EntriesOf(t', p), d.fullPath) != {}
  {
    assert d in Matching(EntriesOf(t', p), d.fullPath);
  }

  // The body of the loop.
  method PopulateFromLine(db: MountedApexDatabase, sys: Sys, lines: seq<string>, i: nat, active: map<string, int>)
    returns (ok: bool, active': map<string, int>)
    requires i < |lines| && Loaded(db.mounted, active, Resolved(sys, lines[..i]))
    modifies db
    ensures ok <==> !AnyCollide(Resolved(sys, lines[..i + 1]))
    ensures ok ==> Loaded(db.mounted, active', Resolved(sys, lines[..i + 1]))
  {
    ResolvedNext(sys, lines, i);
    assert !AnyCollide(Resolved(sys, lines[..i]));
    hide Loaded, Resolved, AnyCollide, ResolveMountInfo, ParseMountInfo;
    ok, active' := true, active;
    var info := ParseMountInfo(lines[i]);
    if ParentPath(info.1) != APEX_ROOT {
      return;
    }
    if IsActiveMountPoint(info.1) {
      return;
    }
    var data := ResolveMountInfo(sys, info.0, info.1);
    if data.None? {
      return;
    }
    ok, active' := Restore(db, active, info.1, data.value, Resolved(sys, lines[..i]));
  }

  /** PopulateFromMounts aborts exactly if two of the records are equal or share a loop or dm name.  Else the records become
      the entries; and if moreover no two of a package share path or version, the highest positive version
      of each package is marked latest. */
  method PopulateFromMounts(db: MountedApexDatabase, sys: Sys, lines: seq<string>) returns (aborted: bool)
    requires db.mounted == map[]
    modifies db
    ensures aborted <==> AnyCollide(Resolved(sys, lines))
    ensures !aborted ==> db.Consistent() && Entered(db.mounted, Resolved(sys, lines))
    ensures AllApart(Resolved(sys, lines)) ==> !aborted && Restored(db.mounted, Resolved(sys, lines))
  {
    hide *;
    var active: map<string, int> := map[];
    aborted := false;
    ApartIsNoCollision(Resolved(sys, lines));
    NothingLoaded(sys, lines);
    var i := 0;
    while i < |lines|
      invariant 0 <= i <= |lines| && Loaded(db.mounted, active, Resolved(sys, lines[..i]))
      invariant AllApart(Resolved(sys, lines)) ==> !AnyCollide(Resolved(sys, lines))
    {
      ResolvedPrefix(sys, lines, i + 1);
      var ok;
      ok, active := PopulateFromLine(db, sys, lines, i, active);
      if !ok {
        PrefixCollides(Resolved(sys, lines), Resolved(sys, lines[..i + 1]));
        return true;
      }
      i := i + 1;
    }
    assert lines[..i] == lines;
    LoadedTells(db, active, Resolved(sys, lines));
  }

  lemma LoadedTells(db: MountedApexDatabase, active: map<string, int>, ds: seq<MountedApexData>)
    requires Loaded(db.mounted, active, ds)
    ensures db.Consistent() && Entered(db.mounted, ds) && !AnyCollide(ds) && (AllApart(ds) ==> Restored(db.mounted, ds))
  {
  }

  lemma NothingLoaded(sys: Sys, lines: seq<string>)
    ensures Loaded(map[], map[], Resolved(sys, lines[..0]))
  {
    assert lines[..0] == [];
    hide RecordOfLine, Highest;
  }
}
