// The device: its disk, and the system calls through which apexd changes it.  The ghost
// log records every change, so the states a method passes through - the states a crash
// in it can leave behind - are the replays of the prefixes of the log.
module DeviceModel {
  import opened Lifecycle

  class Device {
    var disk: Disk
    ghost var world: World         // the disk with its history
    ghost var start: World         // the world when apexd started
    ghost var log: seq<Action>     // every change since
    ghost var faults: nat          // system calls that failed for no reason visible in the disk
    ghost var lost: nat            // those among them that were commits or existence tests
    ghost var stuck: nat           // those among them that were unlinks

    ghost predicate Valid()
      reads this
    {
      && world.disk == disk
      && Inv(start) && Follows(Permitted, start, log)
      && world == Replay(start, log) && Inv(world)
    }

    lemma Facts()
      requires Valid()
      ensures world.disk == disk && Inv(world)
    {
    }

    // Booting from whatever an earlier run, complete or cut by a crash, left behind.
    constructor (d: Disk, ghost w: World)
      requires w.disk == d && Inv(w)
      ensures Valid() && world == w && disk == d && log == [] && faults == 0 && lost == 0 && stuck == 0
    {
      disk := d;
      world, start, log, faults, lost, stuck := w, w, [], 0, 0, 0;
    }

    // One atomic change.  It happens or it does not.
    method Do(a: Action) returns (ok: bool)
      requires Valid() && Permitted(world, a)
      modifies this
      ensures Valid() && start == old(start)
      ensures ok ==> world == Apply(old(world), a) && log == old(log) + [a] && faults == old(faults)
      ensures lost == old(lost) + if !ok && a.Commit? then 1 else 0
      ensures stuck == old(stuck) + if !ok && a.Unlink? then 1 else 0
      ensures !ok ==> world == old(world) && log == old(log) && faults == old(faults) + 1
    {
      ok := *;
      if ok {
        ActionKeepsInv(world, a);
        FollowsOne(Permitted, start, log, a);
        ReplayOne(start, log, a);
        disk := Effect(disk, a);
        world := Apply(world, a);
        log := log + [a];
      } else {
        faults := faults + 1;
        lost := if a.Commit? then lost + 1 else lost;
        stuck := if a.Unlink? then stuck + 1 else stuck;
      }
    }

    // A call that only reads, and may fail.
    method Probe() returns (ok: bool)
      modifies this`faults
      ensures old(Valid()) ==> Valid()
      ensures ok ==> faults == old(faults)
      ensures !ok ==> faults == old(faults) + 1
    {
      ok := *;
      if !ok {
        faults := faults + 1;
      }
    }

    // PathExists
    method PathExists(p: Place) returns (ok: bool, exists_: bool)
      modifies this`faults, this`lost
      ensures old(Valid()) ==> Valid()
      ensures ok ==> exists_ == (p in disk.dirs) && faults == old(faults) && lost == old(lost)
      ensures !ok ==> faults == old(faults) + 1 && lost == old(lost) + 1
    {
      ok := Probe();
      lost := if ok then lost else lost + 1;
      exists_ := p in disk.dirs;
    }

    // ReadDir: every name once, in no particular order.
    method ReadDir(p: Place) returns (ok: bool, names: seq<string>)
      modifies this`faults
      ensures old(Valid()) ==> Valid()
      ensures ok ==> p in disk.dirs && Lists(names, disk.dirs[p]) && faults == old(faults)
      ensures !ok ==> p !in disk.dirs || faults == old(faults) + 1
      ensures faults >= old(faults)
    {
      names := [];
      if p !in disk.dirs {
        return false, [];
      }
      ok := Probe();
      var left := disk.dirs[p].Keys;
      while left != {}
        invariant left <= disk.dirs[p].Keys
        invariant forall n :: n in names <==> n in disk.dirs[p] && n !in left
        invariant forall i, j | 0 <= i < j < |names| :: names[i] != names[j]
        decreases left
      {
        var n :| n in left;
        names := names + [n];
        left := left - {n};
      }
    }
  }

  // DeleteDirContent (apexd_utils.h)
  method DeleteDirContent(dev: Device, p: Place) returns (ok: bool, ghost names: seq<string>)
    requires dev.Valid()
    requires p == Active || (p == Backup && forall id | Readable(dev.disk, id) :: InState(dev.disk, id, ACTIVATED))
    modifies dev
    ensures dev.Valid() && dev.start == old(dev.start) && dev.faults >= old(dev.faults) && dev.lost == old(dev.lost)
    ensures dev.lost >= old(dev.lost) && dev.stuck >= old(dev.stuck)
    ensures dev.faults - dev.lost - dev.stuck >= old(dev.faults - dev.lost - dev.stuck)
    ensures dev.log == old(dev.log) + Unlinks(p, names) && dev.world == Replay(old(dev.world), Unlinks(p, names))
    ensures ok ==> p in old(dev.disk).dirs && Lists(names, old(dev.disk).dirs[p]) && dev.faults == old(dev.faults)
    ensures !ok ==> p !in old(dev.disk).dirs || dev.faults > old(dev.faults)
  {
    hide Inv, Follows;
    names := [];
    assert dev.log == old(dev.log) + Unlinks(p, []);
    var files;
    ok, files := dev.ReadDir(p);
    if !ok {
      return;
    }
    var i := 0;
    while i < |files|
      invariant 0 <= i <= |files|
      invariant dev.Valid() && dev.start == old(dev.start) && dev.faults == old(dev.faults) && dev.lost == old(dev.lost)
      invariant dev.lost >= old(dev.lost) && dev.stuck >= old(dev.stuck)
      invariant dev.faults - dev.lost - dev.stuck >= old(dev.faults - dev.lost - dev.stuck)
      invariant names == files[..i]
      invariant dev.log == old(dev.log) + Unlinks(p, names) && dev.world == Replay(old(dev.world), Unlinks(p, names))
    {
      MayUnlinkNext(old(dev.world), p, files, i);
      ok := dev.Do(Unlink(p, files[i]));
      if !ok {
        return;
      }
      OneMoreUnlink(old(dev.world), p, map[], files, i);
      names := files[..i + 1];
      i := i + 1;
    }
    assert files[..i] == files;
  }

  lemma MayUnlinkNext(w: World, p: Place, files: seq<string>, i: nat)
    requires p == Active || (p == Backup && forall id | Readable(w.disk, id) :: InState(w.disk, id, ACTIVATED))
    requires p in w.disk.dirs && Lists(files, w.disk.dirs[p]) && i < |files|
    ensures Permitted(Replay(w, Unlinks(p, files[..i])), Unlink(p, files[i]))
  {
    UnlinksReplay(w, p, files[..i]);
    var d := Replay(w, Unlinks(p, files[..i])).disk;
    assert d.sessions == w.disk.sessions;
    assert forall id | Readable(d, id) :: Readable(w.disk, id);
  }

  // createDirIfNeeded (apexd_utils.h); permissions are not modelled, a failing chmod is a fault.
  method CreateDirIfNeeded(dev: Device, p: Place) returns (ok: bool)
    requires dev.Valid()
    requires p == Active || (p == Backup && NoReadable(dev.disk))
    modifies dev
    ensures dev.Valid() && dev.start == old(dev.start) && dev.faults >= old(dev.faults)
    ensures dev.lost >= old(dev.lost) && dev.stuck >= old(dev.stuck)
    ensures dev.faults - dev.lost - dev.stuck >= old(dev.faults - dev.lost - dev.stuck)
    ensures (dev.log == old(dev.log) && dev.world == old(dev.world)) ||
            (p !in old(dev.disk).dirs && dev.log == old(dev.log) + [MakeDir(p)] && dev.world == Apply(old(dev.world), MakeDir(p)))
    ensures ok ==> p in dev.disk.dirs && dev.faults == old(dev.faults)
    ensures !ok ==> dev.faults > old(dev.faults)
  {
    if p !in dev.disk.dirs {
      ok := dev.Do(MakeDir(p));
      if !ok {
        return;
      }
    }
    ok := dev.Probe();
  }
}
