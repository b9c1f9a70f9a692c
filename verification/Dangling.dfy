// Unmounting every version that is not the latest (unmountDanglingMounts in apexd.cpp).
module Dangling {
  import opened Names
  import opened Database
  import opened KernelModel
  import opened Mount
  import opened Coupling
  import opened Activation
  import opened Lifecycle
  import opened DeviceModel

  const ACTIVE_DIR := "/data/apex/active"

  function DanglingIn(t: Table): set<(string, MountedApexData)> {
    set x | x in Pairs(t) && !Latest(t, x.0, x.1)
  }

  // From t the given entries are gone, and nothing else changed.
  ghost predicate Dropped(t: Table, t': Table, gone: set<(string, MountedApexData)>) {
    && (forall p, d :: Has(t', p, d) <==> Has(t, p, d) && (p, d) !in gone)
    && (forall p, d :: Latest(t', p, d) <==> Latest(t, p, d) && (p, d) !in gone)
  }

  lemma DroppedOneMore(t: Table, t': Table, gone: set<(string, MountedApexData)>, x: (string, MountedApexData))
    requires Dropped(t, t', gone)
    ensures Dropped(t, WithoutEntry(t', x.0, x.1), gone + {x})
  {
    EntriesLeft(t', x.0, x.1);
    hide Has, Latest, WithoutEntry;
  }

  // Exactly the latest entries, with their flags.
  ghost predicate OnlyLatestLeft(t: Table, t': Table) {
    && (forall p, d :: Has(t', p, d) <==> Latest(t, p, d))
    && (forall p, d :: Latest(t', p, d) <==> Latest(t, p, d))
  }

  function ActivePath(name: string): string {
    "/data/apex/active/" + name
  }

  // The files in the active directory that dangling entries among these have mounted.
  predicate Unlinkable(entries: set<(string, MountedApexData)>, name: string) {
    exists x :: x in entries && x.1.fullPath == ActivePath(name)
  }

  function WithoutFiles(d: Disk, names: set<string>): Disk {
    if Active in d.dirs then d.(dirs := d.dirs[Active := d.dirs[Active] - names]) else d
  }

  lemma WithoutNoFiles(d: Disk)
    ensures WithoutFiles(d, {}) == d
  {
    if Active in d.dirs {
      assert d.dirs[Active] - {} == d.dirs[Active];
      assert d.dirs[Active := d.dirs[Active]] == d.dirs;
    }
  }

  // unlink of a path that starts like the active directory: it fails without effect unless it names a file there.
  method UnlinkFile(dev: Device, path: string) returns (ghost gone: set<string>)
    requires dev.Valid()
    modifies dev
    ensures dev.Valid() && dev.start == old(dev.start) && dev.faults >= old(dev.faults)
    ensures dev.disk == WithoutFiles(old(dev.disk), gone) && forall name | name in gone :: ActivePath(name) == path
    ensures dev.faults == old(dev.faults) ==> forall name | ActivePath(name) == path :: name !in Contents(dev.disk, Active)
  {
    gone := {};
    WithoutNoFiles(dev.disk);
    var dir := ACTIVE_DIR + "/";
    if StartsWith(path, dir) {
      var name := path[|dir|..];
      assert forall n | ActivePath(n) == path :: n == ActivePath(n)[|dir|..];
      if name in Contents(dev.disk, Active) {
        dev.Facts();
        var ok := dev.Do(Unlink(Active, name));
        dev.Facts();
        if ok {
          gone := {name};
        }
      }
    }
  }

  lemma UnlinkableIsNotLatest(t: Table, s: KState, files: Files, loose: set<string>, name: string)
    requires Coupled(t, s, files, loose) && Unlinkable(DanglingIn(t), name)
    ensures forall p, d | Latest(t, p, d) :: d.fullPath != ActivePath(name)
  {
    var x :| x in DanglingIn(t) && x.1.fullPath == ActivePath(name);
    forall p, d | Latest(t, p, d)
      ensures d.fullPath != ActivePath(name)
    {
      if d.fullPath == ActivePath(name) {
        SamePathSameEntry(t, s, files, loose, p, d, x.0, x.1);
      }
    }
  }

  method UnmountOne(db: MountedApexDatabase, k: Kernel, ghost files: Files, ghost loose: set<string>,
                    ghost t: Table, ghost gone: set<(string, MountedApexData)>, x: (string, MountedApexData))
    requires FilesOk(files) && Coupled(db.mounted, k.s, files, loose)
    requires Dropped(t, db.mounted, gone) && x in DanglingIn(t) && x !in gone
    modifies db, k`s, k`leaks, k`inverted
    ensures Coupled(db.mounted, k.s, files, loose) && k.leaks >= old(k.leaks)
    ensures Dropped(t, db.mounted, gone + {x})
    ensures k.leaks == old(k.leaks) && AllReleased(old(k.s), gone) ==> AllReleased(k.s, gone + {x})
    ensures Layered(old(db.mounted), old(k.s)) && k.leaks == old(k.leaks) ==>
              Layered(db.mounted, k.s) && k.inverted == old(k.inverted)
  {
    hide *;
    StillThere(t, db.mounted, gone, x);
    OnlyEntryWithPath(db.mounted, k.s, files, loose, x.0, x.1);
    DroppedOneMore(t, db.mounted, gone, x);
    ghost var s := k.s;
    StillBacked(db.mounted, s, files, loose, x);
    var ok := RemoveAndUnmount(db, k, files, loose, x.0, x.1, db.mounted);
    if k.leaks == old(k.leaks) && AllReleased(s, gone) {
      OneMoreReleased(s, k.s, gone, x);
    }
  }

  // Nothing in the kernel is left of an entry.
  predicate Released(s: KState, d: MountedApexData) {
    && d.mountPoint !in s.mounts
    && (d.loopName == "" || d.loopName !in s.loops) && (d.deviceName == "" || d.deviceName !in s.dms)
  }

  ghost predicate AllReleased(s: KState, gone: set<(string, MountedApexData)>) {
    forall x | x in gone :: Released(s, x.1)
  }

  lemma StillBacked(t: Table, s: KState, files: Files, loose: set<string>, x: (string, MountedApexData))
    requires Coupled(t, s, files, loose) && Has(t, x.0, x.1)
    ensures Backed(s, x.1)
  {
  }

  lemma OneMoreReleased(a: KState, b: KState, gone: set<(string, MountedApexData)>, x: (string, MountedApexData))
    requires AllReleased(a, gone) && Backed(a, x.1) && b == Unmounted(a, x.1) && Shrinks(a, b, x.1)
    ensures AllReleased(b, gone + {x})
  {
    UnmountTakesFields(a, x.1);
    hide Unmounted;
  }

  // The files unlinked so far are those of entries that are done, all of them if nothing failed.
  ghost predicate Unlinked(d: Disk, d': Disk, done: set<(string, MountedApexData)>, gone: set<string>, clean: bool) {
    && d' == WithoutFiles(d, gone) && (forall name | name in gone :: Unlinkable(done, name))
    && (clean ==> forall name | Unlinkable(done, name) :: name !in Contents(d', Active))
  }

  method UnlinkOne(dev: Device, x: (string, MountedApexData), ghost d: Disk, ghost done: set<(string, MountedApexData)>,
                   ghost gone: set<string>, ghost clean: bool)
    returns (ghost gone': set<string>)
    requires dev.Valid() && Unlinked(d, dev.disk, done, gone, clean)
    modifies dev
    ensures dev.Valid() && dev.start == old(dev.start) && dev.faults >= old(dev.faults)
    ensures Unlinked(d, dev.disk, done + {x}, gone', clean && dev.faults == old(dev.faults))
  {
    gone' := gone;
    ghost var before := dev.disk;
    WithoutNoFiles(before);
    if StartsWith(x.1.fullPath, ACTIVE_DIR) {
      ghost var now := UnlinkFile(dev, x.1.fullPath);
      UnlinkedMore(d, before, dev.disk, done, x, gone, now, clean, dev.faults == old(dev.faults));
      gone' := gone + now;
    } else {
      NotUnderActive(x.1.fullPath);
      UnlinkedMore(d, before, before, done, x, gone, {}, clean, true);
      assert gone + {} == gone;
    }
  }

  lemma NotUnderActive(path: string)
    requires !StartsWith(path, ACTIVE_DIR)
    ensures forall name :: ActivePath(name) != path
  {
    forall name
      ensures ActivePath(name) != path
    {
      assert ActivePath(name)[..|ACTIVE_DIR|] == ACTIVE_DIR;
    }
  }

  lemma UnlinkedMore(d: Disk, d1: Disk, d2: Disk, done: set<(string, MountedApexData)>, x: (string, MountedApexData),
                     gone: set<string>, now: set<string>, clean: bool, cleanNow: bool)
    requires Unlinked(d, d1, done, gone, clean)
    requires d2 == WithoutFiles(d1, now) && forall name | name in now :: ActivePath(name) == x.1.fullPath
    requires cleanNow ==> forall name | ActivePath(name) == x.1.fullPath :: name !in Contents(d2, Active)
    ensures Unlinked(d, d2, done + {x}, gone + now, clean && cleanNow)
  {
    hide ActivePath;
    assert d2 == WithoutFiles(d, gone + now) by {
      if Active in d.dirs {
        assert d.dirs[Active] - gone - now == d.dirs[Active] - (gone + now);
      }
    }
    forall name
      ensures Unlinkable(done + {x}, name) <==> Unlinkable(done, name) || x.1.fullPath == ActivePath(name)
    {
      if Unlinkable(done, name) {
        var y :| y in done && y.1.fullPath == ActivePath(name);
        assert y in done + {x};
      }
      assert x in done + {x};
    }
  }

  /** unmountDanglingMounts: the latest entries stay as they are and all others go, and no file of a
      latest entry is unlinked, even if an unmount fails.  gone holds the files unlinked in the active directory. */
  method UnmountDanglingMounts(db: MountedApexDatabase, k: Kernel, dev: Device, ghost files: Files, ghost loose: set<string>)
    returns (ghost gone: set<string>)
    requires FilesOk(files) && Coupled(db.mounted, k.s, files, loose) && dev.Valid()
    modifies db, k`s, k`leaks, k`inverted, dev
    ensures Coupled(db.mounted, k.s, files, loose) && k.leaks >= old(k.leaks)
    ensures OnlyLatestLeft(old(db.mounted), db.mounted)
    ensures dev.Valid() && dev.start == old(dev.start) && dev.faults >= old(dev.faults)
    ensures Unlinked(old(dev.disk), dev.disk, DanglingIn(old(db.mounted)), gone, dev.faults == old(dev.faults))
    ensures forall name, p, d | name in gone && Latest(old(db.mounted), p, d) :: d.fullPath != ActivePath(name)
    ensures k.leaks == old(k.leaks) ==> AllReleased(k.s, DanglingIn(old(db.mounted)))
    ensures Layered(old(db.mounted), old(k.s)) && k.leaks == old(k.leaks) ==>
              Layered(db.mounted, k.s) && k.inverted == old(k.inverted)
  {
    hide *;
    ghost var t, s, d := db.mounted, k.s, dev.disk;
    var danglings := DanglingIn(db.mounted);
    var left := danglings;
    ghost var done: set<(string, MountedApexData)> := {};
    gone := {};
    NothingDropped(t, d);
    while left != {}
      invariant left <= danglings && done == danglings - left && k.leaks >= old(k.leaks)
      invariant Coupled(db.mounted, k.s, files, loose) && Dropped(t, db.mounted, done)
      invariant k.leaks == old(k.leaks) ==> AllReleased(k.s, done)
      invariant dev.Valid() && dev.start == old(dev.start) && dev.faults >= old(dev.faults)
      invariant Unlinked(d, dev.disk, done, gone, dev.faults == old(dev.faults))
      invariant Layered(t, s) && k.leaks == old(k.leaks) ==> Layered(db.mounted, k.s) && k.inverted == old(k.inverted)
      decreases left
    {
      var x :| x in left;
      UnmountOne(db, k, files, loose, t, done, x);
      gone := UnlinkOne(dev, x, d, done, gone, dev.faults == old(dev.faults));
      left, done := left - {x}, done + {x};
    }
    assert done == danglings;
    AllDropped(t, db.mounted);
    NoneLatestUnlinked(t, s, files, loose, d, dev.disk, gone, dev.faults == old(dev.faults));
  }

  lemma NoneLatestUnlinked(t: Table, s: KState, files: Files, loose: set<string>, d: Disk, d': Disk, gone: set<string>, clean: bool)
    requires Coupled(t, s, files, loose) && Unlinked(d, d', DanglingIn(t), gone, clean)
    ensures forall name, p, e | name in gone && Latest(t, p, e) :: e.fullPath != ActivePath(name)
  {
    forall name | name in gone
      ensures forall p, e | Latest(t, p, e) :: e.fullPath != ActivePath(name)
    {
      UnlinkableIsNotLatest(t, s, files, loose, name);
    }
  }

  lemma NothingDropped(t: Table, d: Disk)
    ensures Dropped(t, t, {}) && Unlinked(d, d, {}, {}, true) && forall s :: AllReleased(s, {})
  {
    WithoutNoFiles(d);
  }

  lemma StillThere(t: Table, t': Table, gone: set<(string, MountedApexData)>, x: (string, MountedApexData))
    requires Dropped(t, t', gone) && x in DanglingIn(t) && x !in gone
    ensures Has(t', x.0, x.1)
  {
  }

  lemma AllDropped(t: Table, t': Table)
    requires Dropped(t, t', DanglingIn(t))
    ensures OnlyLatestLeft(t, t')
  {
    assert forall p, d :: Has(t, p, d) <==> (p, d) in Pairs(t);
  }
}
