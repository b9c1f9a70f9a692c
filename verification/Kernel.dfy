// The kernel objects behind mounted packages: loop devices, dm-verity devices, mounts and
// the directories under /apex.  Every call may fail; leaks counts the failed releases and
// faults the other failures that nothing in the state explains.
module KernelModel {
  import opened Names

  datatype Loop = Loop(file: string, tagged: bool)  // tagged: the name of apexd's loops is set

  // What a mount shows: a file system on a block device, or a directory tree.
  datatype Source = OnLoop(loopName: string) | OnDm(dmName: string) | Tree(path: string)

  datatype KState = KState(
    loops: map<string, Loop>,          // attached loop devices
    dms: map<string, string>,          // dm-verity devices, with the loop device beneath
    mounts: map<string, seq<Source>>,  // what is mounted on a directory, the visible mount last
    dirs: set<string>,                 // directories under /apex, empty unless mounted on
    plain: set<string>)                // other files there

  function Stack(s: KState, dir: string): seq<Source> {
    if dir in s.mounts then s.mounts[dir] else []
  }

  function Top(s: KState, dir: string): Option<Source> {
    if Stack(s, dir) == [] then None else Some(Stack(s, dir)[|Stack(s, dir)| - 1])
  }

  function MountOn(s: KState, dir: string, source: Source): KState {
    s.(mounts := s.mounts[dir := Stack(s, dir) + [source]])
  }

  function UnmountTop(s: KState, dir: string): KState {
    var stack := Stack(s, dir);
    s.(mounts := if |stack| <= 1 then s.mounts - {dir} else s.mounts[dir := stack[..|stack| - 1]])
  }

  // What a bind mount of a directory shows.
  function Shown(s: KState, dir: string): Source {
    match Top(s, dir) case Some(source) => source case None => Tree(dir)
  }

  function WithLoop(s: KState, name: string, loop: Loop): KState {
    s.(loops := s.loops[name := loop])
  }

  function WithoutLoop(s: KState, name: string): KState {
    s.(loops := s.loops - {name})
  }

  function WithDm(s: KState, name: string, loopName: string): KState {
    s.(dms := s.dms[name := loopName])
  }

  function WithoutDm(s: KState, name: string): KState {
    s.(dms := s.dms - {name})
  }

  function WithDir(s: KState, dir: string): KState {
    s.(dirs := s.dirs + {dir})
  }

  function WithoutDir(s: KState, dir: string): KState {
    s.(dirs := s.dirs - {dir})
  }

  predicate LoopInUse(s: KState, name: string) {
    exists d :: d in s.dms && s.dms[d] == name
  }

  // No dm device without the loop device beneath it.
  ghost predicate Grounded(s: KState) {
    forall d | d in s.dms :: s.dms[d] in s.loops
  }

  // A process that was run: its arguments, the kernel when it started, and whether it succeeded.
  datatype Launch = Launch(args: seq<string>, s: KState, ok: bool)

  // A check of a package that passed: the verity data of the file, every block of its dm device, the manifest found
  // on the mount point against that of the file.
  datatype Check = VerityData(path: string) | Blocks(device: string) | MountedImage(path: string, mountPoint: string)

  datatype Released = Done | NothingThere | Failed

  class Kernel {
    var s: KState
    ghost var faults: nat
    ghost var leaks: nat     // releases that failed although there was something to release
    ghost var inverted: nat  // loop devices released below a dm device
    ghost var ran: seq<Launch>
    ghost var passed: seq<Check>

    constructor (state: KState)
      ensures s == state && faults == 0 && leaks == 0 && inverted == 0 && ran == [] && passed == []
    {
      s := state;
      faults, leaks, inverted, ran, passed := 0, 0, 0, [], [];
    }

    // Opening, reading, configuring, waiting: calls that change nothing modelled here.
    method Probe() returns (ok: bool)
      modifies this`faults
      ensures faults == old(faults) + if ok then 0 else 1
    {
      ok := *;
      faults := faults + if ok then 0 else 1;
    }

    method Verify(check: Check) returns (ok: bool)
      modifies this`faults, this`passed
      ensures faults == old(faults) + if ok then 0 else 1
      ensures passed == if ok then old(passed) + [check] else old(passed)
    {
      ok := *;
      faults := faults + if ok then 0 else 1;
      passed := if ok then passed + [check] else passed;
    }

    // ForkAndRun.  What the process does to the mounts stays in its own mount namespace.
    method Run(args: seq<string>) returns (ok: bool)
      modifies this`ran
      ensures ran == old(ran) + [Launch(args, s, ok)]
    {
      ok := *;
      ran := ran + [Launch(args, s, ok)];
    }

    // LOOP_CTL_GET_FREE
    method GetFreeLoop() returns (r: Option<string>)
      modifies this`faults
      ensures r.Some? ==> r.value !in s.loops && r.value != ""
      ensures faults == old(faults) + if r.Some? then 0 else 1
    {
      var name: string := *;
      r := if name in s.loops || name == "" then None else Some(name);
      faults := faults + if r.Some? then 0 else 1;
    }

    // LOOP_SET_FD
    method SetLoopFile(name: string, file: string) returns (ok: bool)
      modifies this`s, this`faults
      ensures ok ==> name !in old(s).loops && s == WithLoop(old(s), name, Loop(file, false))
      ensures !ok ==> s == old(s)
      ensures faults == old(faults) + if !ok && name !in old(s).loops then 1 else 0
    {
      ok := *;
      faults := faults + if !ok && name !in s.loops then 1 else 0;
      if name in s.loops {
        ok := false;
      }
      if ok {
        s := WithLoop(s, name, Loop(file, false));
      }
    }

    // LOOP_SET_STATUS64
    method TagLoop(name: string) returns (ok: bool)
      modifies this`s, this`faults
      ensures ok ==> name in old(s).loops && s == WithLoop(old(s), name, old(s).loops[name].(tagged := true))
      ensures !ok ==> s == old(s)
      ensures faults == old(faults) + if !ok && name in old(s).loops then 1 else 0
    {
      ok := *;
      faults := faults + if !ok && name in s.loops then 1 else 0;
      if name !in s.loops {
        ok := false;
      }
      if ok {
        s := WithLoop(s, name, s.loops[name].(tagged := true));
      }
    }

    // LOOP_CLR_FD
    method ClearLoop(name: string) returns (r: Released)
      modifies this`s, this`leaks, this`inverted
      ensures r == NothingThere <==> name !in old(s).loops
      ensures s == if r == Done then WithoutLoop(old(s), name) else old(s)
      ensures leaks == if r == Failed then old(leaks) + 1 else old(leaks)
      ensures inverted == if r == Done && LoopInUse(old(s), name) then old(inverted) + 1 else old(inverted)
    {
      var ok: bool := *;
      r := if name !in s.loops then NothingThere else if ok then Done else Failed;
      leaks := if r == Failed then leaks + 1 else leaks;
      inverted := if r == Done && LoopInUse(s, name) then inverted + 1 else inverted;
      if r == Done {
        s := WithoutLoop(s, name);
      }
    }

    // DeviceMapper::CreateDevice
    method CreateDm(name: string, loopName: string) returns (ok: bool)
      modifies this`s, this`faults
      ensures ok ==> name !in old(s).dms && s == WithDm(old(s), name, loopName)
      ensures !ok ==> s == old(s)
      ensures faults == old(faults) + if !ok && name !in old(s).dms then 1 else 0
    {
      ok := *;
      faults := faults + if !ok && name !in s.dms then 1 else 0;
      if name in s.dms {
        ok := false;
      }
      if ok {
        s := WithDm(s, name, loopName);
      }
    }

    // DeviceMapper::DeleteDevice
    method DeleteDm(name: string) returns (r: Released)
      modifies this`s, this`leaks
      ensures r == NothingThere <==> name !in old(s).dms
      ensures s == if r == Done then WithoutDm(old(s), name) else old(s)
      ensures leaks == if r == Failed then old(leaks) + 1 else old(leaks)
    {
      var ok: bool := *;
      r := if name !in s.dms then NothingThere else if ok then Done else Failed;
      leaks := if r == Failed then leaks + 1 else leaks;
      if r == Done {
        s := WithoutDm(s, name);
      }
    }

    method Mkdir(dir: string) returns (ok: bool)
      modifies this`s, this`faults
      ensures ok ==> dir !in old(s).dirs && dir !in old(s).plain && s == WithDir(old(s), dir)
      ensures !ok ==> s == old(s)
      ensures faults == old(faults) + if !ok && dir !in old(s).dirs && dir !in old(s).plain then 1 else 0
    {
      ok := *;
      faults := faults + if !ok && dir !in s.dirs && dir !in s.plain then 1 else 0;
      if dir in s.dirs || dir in s.plain {
        ok := false;
      }
      if ok {
        s := WithDir(s, dir);
      }
    }

    // unlink
    method RemoveFile(path: string) returns (ok: bool)
      modifies this`s, this`faults
      ensures ok ==> path in old(s).plain && s == old(s).(plain := old(s).plain - {path})
      ensures !ok ==> s == old(s)
      ensures faults == old(faults) + if !ok && path in old(s).plain then 1 else 0
    {
      ok := *;
      faults := faults + if !ok && path in s.plain then 1 else 0;
      if path !in s.plain {
        ok := false;
      }
      if ok {
        s := s.(plain := s.plain - {path});
      }
    }

    // rmdir fails on a directory that something is mounted on.
    method Rmdir(dir: string) returns (r: Released)
      modifies this`s, this`leaks
      ensures r == NothingThere <==> dir !in old(s).dirs || dir in old(s).mounts
      ensures s == if r == Done then WithoutDir(old(s), dir) else old(s)
      ensures leaks == if r == Failed then old(leaks) + 1 else old(leaks)
    {
      var ok: bool := *;
      r := if dir !in s.dirs || dir in s.mounts then NothingThere else if ok then Done else Failed;
      leaks := if r == Failed then leaks + 1 else leaks;
      if r == Done {
        s := WithoutDir(s, dir);
      }
    }

    method Mount(source: Source, dir: string) returns (ok: bool)
      modifies this`s, this`faults
      ensures ok ==> dir in old(s).dirs && s == MountOn(old(s), dir, source)
      ensures !ok ==> s == old(s)
      ensures faults == old(faults) + if !ok && dir in old(s).dirs then 1 else 0
    {
      ok := *;
      faults := faults + if !ok && dir in s.dirs then 1 else 0;
      if dir !in s.dirs {
        ok := false;
      }
      if ok {
        s := MountOn(s, dir, source);
      }
    }

    // umount2 with UMOUNT_NOFOLLOW | MNT_DETACH
    method Umount(dir: string) returns (r: Released)
      modifies this`s, this`leaks
      ensures r == NothingThere <==> dir !in old(s).mounts
      ensures s == if r == Done then UnmountTop(old(s), dir) else old(s)
      ensures leaks == if r == Failed then old(leaks) + 1 else old(leaks)
    {
      var ok: bool := *;
      r := if dir !in s.mounts then NothingThere else if ok then Done else Failed;
      leaks := if r == Failed then leaks + 1 else leaks;
      if r == Done {
        s := UnmountTop(s, dir);
      }
    }
  }
}
