// Mounting and unmounting a package (apexd.cpp, apexd_loop.h, apexd_loop.cpp).
module Mount {
  import opened Names
  import opened Database
  import opened KernelModel

  datatype Apex = Apex(path: string, manifest: Manifest, flattened: bool)

  // kUpdatable, gBootstrap and gForceDmVerityOnSystem
  datatype Config = Config(updatable: bool, bootstrap: bool, verityOnSystem: bool)

  // isPathForBuiltinApexes
  predicate IsBuiltin(path: string): (r: bool)
    ensures r <==> "/system/apex" <= path || "/product/apex" <= path
  {
    StartsWith(path, "/system/apex") || StartsWith(path, "/product/apex")
  }

  predicate OnVerity(cfg: Config, apex: Apex) {
    cfg.verityOnSystem || !IsBuiltin(apex.path)
  }

  const LOOP_SETUP_ATTEMPTS := 3
  const LOOP_OPEN_ATTEMPTS := 3

  /** Owners.  Destroy stands for the destructor; it runs exactly once, at the end of the owner's scope. */

  class LoopbackDeviceUniqueFd {
    var open: bool  // whether device_fd holds a descriptor
    var name: string

    constructor Empty()
      ensures !open
    {
      open, name := false, "";
    }

    constructor (device: string)
      ensures open && name == device
    {
      open, name := true, device;
    }

    method MaybeCloseBad(k: Kernel)
      modifies k`s, k`leaks, k`inverted
      ensures k.s == old(k.s) || (open && k.s == WithoutLoop(old(k.s), name))
      ensures k.leaks >= old(k.leaks)
      ensures k.leaks == old(k.leaks) && open ==> k.s == WithoutLoop(old(k.s), name)
      ensures k.inverted == old(k.inverted) || (open && LoopInUse(old(k.s), name))
      ensures !open ==> k.leaks == old(k.leaks)
    {
      if open {
        var r := k.ClearLoop(name);
        if r == NothingThere {
          assert k.s.loops == k.s.loops - {name};
        }
      }
    }

    // Move assignment
    method MoveFrom(k: Kernel, other: LoopbackDeviceUniqueFd)
      requires other != this
      modifies this, other, k`s, k`leaks, k`inverted
      ensures open == old(other.open) && name == old(other.name) && !other.open
      ensures !old(open) ==> k.s == old(k.s) && k.leaks == old(k.leaks) && k.inverted == old(k.inverted)
      ensures k.leaks >= old(k.leaks) && (k.s == old(k.s) || (old(open) && k.s == WithoutLoop(old(k.s), old(name))))
      ensures k.leaks == old(k.leaks) && old(open) ==> k.s == WithoutLoop(old(k.s), old(name))
    {
      MaybeCloseBad(k);
      open, other.open := other.open, false;
      name, other.name := other.name, "";
    }

    method CloseGood()
      modifies this`open
      ensures !open
    {
      open := false;
    }

    method Destroy(k: Kernel)
      modifies k`s, k`leaks, k`inverted, this`open
      ensures !open
      ensures k.s == old(k.s) || (old(open) && k.s == WithoutLoop(old(k.s), name))
      ensures k.leaks >= old(k.leaks)
      ensures k.leaks == old(k.leaks) && old(open) ==> k.s == WithoutLoop(old(k.s), name)
      ensures k.inverted == old(k.inverted) || (old(open) && LoopInUse(old(k.s), name))
      ensures !old(open) ==> k.leaks == old(k.leaks)
    {
      MaybeCloseBad(k);
      open := false;
    }
  }

  class DmVerityDevice {
    var name: string
    var cleared: bool

    constructor Empty()
      ensures cleared
    {
      name, cleared := "", true;
    }

    constructor (device: string)
      ensures !cleared && name == device
    {
      name, cleared := device, false;
    }

    // Move assignment forgets what it held before.
    method MoveFrom(other: DmVerityDevice)
      requires other != this
      modifies this, other
      ensures cleared == old(other.cleared) && name == old(other.name) && other.cleared
    {
      name, cleared := other.name, other.cleared;
      other.cleared := true;
    }

    method Release()
      modifies this`cleared
      ensures cleared
    {
      cleared := true;
    }

    method Destroy(k: Kernel)
      modifies k`s, k`leaks, this`cleared
      ensures cleared
      ensures k.s == old(k.s) || (!old(cleared) && k.s == WithoutDm(old(k.s), name))
      ensures k.leaks >= old(k.leaks)
      ensures k.leaks == old(k.leaks) && !old(cleared) ==> k.s == WithoutDm(old(k.s), name)
      ensures old(cleared) ==> k.leaks == old(k.leaks)
    {
      if !cleared {
        var r := k.DeleteDm(name);
        if r == NothingThere {
          assert k.s.dms == k.s.dms - {name};
        }
        cleared := true;
      }
    }
  }

  /** Loop devices */

  ghost predicate MoreLoops(a: KState, b: KState) {
    && b == a.(loops := b.loops)
    && (forall l | l in a.loops :: l in b.loops && b.loops[l] == a.loops[l])
  }

  // createLoopDevice up to where its result is returned.
  method SetUpLoop(k: Kernel, target: string, device: LoopbackDeviceUniqueFd) returns (ok: bool)
    requires !device.open
    modifies k`s, k`faults, k`leaks, k`inverted, device
    ensures k.leaks == old(k.leaks) && k.inverted == old(k.inverted)
    ensures device.open ==> device.name !in old(k.s).loops && device.name != ""
    ensures k.s == old(k.s) || (device.open && exists loop :: k.s == WithLoop(old(k.s), device.name, loop))
    ensures ok ==> device.open && k.s == WithLoop(old(k.s), device.name, Loop(target, true))
    ensures k.faults >= old(k.faults) && (!ok ==> k.faults > old(k.faults))
    ensures k.faults <= old(k.faults) + if ok then 2 else 3  // no step but opening the device may fail
  {
    ok := k.Probe();  // /dev/loop-control
    if !ok {
      return;
    }
    var free := k.GetFreeLoop();
    if free.None? {
      return false;
    }
    ok := k.Probe();  // the target
    if !ok {
      return;
    }
    var i, ready := 0, false;
    while i != LOOP_OPEN_ATTEMPTS && !ready
      invariant 0 <= i <= LOOP_OPEN_ATTEMPTS
      modifies k`faults
      invariant k.faults == old(k.faults) + if ready then i - 1 else i
      invariant ready ==> i > 0
      decreases LOOP_OPEN_ATTEMPTS - i
    {
      ready := k.Probe();
      i := i + 1;
    }
    if !ready {
      return false;
    }
    var temporary := new LoopbackDeviceUniqueFd(free.value);
    device.MoveFrom(k, temporary);
    temporary.Destroy(k);
    ok := k.SetLoopFile(device.name, target);
    if !ok {
      return;
    }
    ok := k.TagLoop(device.name);
    if !ok {
      return;
    }
    assert k.s == WithLoop(old(k.s), device.name, Loop(target, true));
    ok := k.Probe();  // flushing buffers
    if !ok {
      return;
    }
    ok := k.Probe();  // read-ahead
  }

  method CreateLoopDevice(k: Kernel, target: string) returns (r: LoopbackDeviceUniqueFd?)
    modifies k`s, k`faults, k`leaks, k`inverted
    ensures k.leaks >= old(k.leaks) && MoreLoops(old(k.s), k.s)
    ensures r != null ==> fresh(r) && r.open && r.name !in old(k.s).loops && r.name != ""
    ensures r != null ==> k.s == WithLoop(old(k.s), r.name, Loop(target, true)) && k.leaks == old(k.leaks)
    ensures r == null && k.leaks == old(k.leaks) ==> k.s == old(k.s)
    ensures k.faults >= old(k.faults) && (r == null ==> k.faults > old(k.faults))
    ensures k.faults <= old(k.faults) + if r != null then 2 else 3
    ensures Grounded(old(k.s)) ==> k.inverted == old(k.inverted)
  {
    var device := new LoopbackDeviceUniqueFd.Empty();
    var ok := SetUpLoop(k, target, device);
    r := null;
    if ok {
      r := new LoopbackDeviceUniqueFd.Empty();
      r.MoveFrom(k, device);
    }
    AttachedThenCleared(old(k.s), device.name);
    device.Destroy(k);
  }

  lemma AttachedThenCleared(a: KState, name: string)
    ensures name !in a.loops ==> a.loops - {name} == a.loops
    ensures name !in a.loops ==> forall loop :: WithoutLoop(WithLoop(a, name, loop), name) == a
    ensures name !in a.loops && Grounded(a) ==> !LoopInUse(a, name)
  {
    forall loop | name !in a.loops
      ensures WithoutLoop(WithLoop(a, name, loop), name) == a
    {
      assert a.loops[name := loop] - {name} == a.loops;
    }
  }

  // The attempts of mountNonFlattened.
  method AcquireLoop(k: Kernel, target: string, device: LoopbackDeviceUniqueFd) returns (ok: bool)
    requires !device.open
    modifies k`s, k`faults, k`leaks, k`inverted, device
    ensures k.leaks >= old(k.leaks)
    ensures ok <==> device.open
    ensures k.faults >= old(k.faults) && (!ok ==> k.faults >= old(k.faults) + 3)  // each attempt failed
    ensures ok ==> k.faults <= old(k.faults) + 8
    ensures ok ==> device.name !in old(k.s).loops && device.name != ""
    ensures MoreLoops(old(k.s), k.s) && (ok ==> device.name in k.s.loops && k.s.loops[device.name] == Loop(target, true))
    ensures k.leaks == old(k.leaks) ==> k.s == if ok then WithLoop(old(k.s), device.name, Loop(target, true)) else old(k.s)
    ensures Grounded(old(k.s)) ==> k.inverted == old(k.inverted)
  {
    var attempts := 1;
    while true
      invariant 1 <= attempts <= LOOP_SETUP_ATTEMPTS
      invariant !device.open && k.leaks >= old(k.leaks) && MoreLoops(old(k.s), k.s)
      invariant old(k.faults) + attempts - 1 <= k.faults <= old(k.faults) + 3 * (attempts - 1)
      invariant k.leaks == old(k.leaks) ==> k.s == old(k.s)
      invariant Grounded(old(k.s)) ==> k.inverted == old(k.inverted)
      decreases LOOP_SETUP_ATTEMPTS - attempts
    {
      var r := CreateLoopDevice(k, target);
      if r != null {
        device.MoveFrom(k, r);
        r.Destroy(k);
        return true;
      }
      if attempts >= LOOP_SETUP_ATTEMPTS {
        return false;
      }
      attempts := attempts + 1;
    }
  }

  /** dm-verity devices */

  // createVerityDevice.  An existing device of that name is deleted, if that works.
  method CreateVerityDevice(k: Kernel, name: string, loopName: string) returns (r: DmVerityDevice?)
    modifies k`s, k`leaks, k`faults
    ensures k.leaks >= old(k.leaks) && k.faults >= old(k.faults)
    ensures r == null ==> k.faults + k.leaks > old(k.faults + k.leaks)
    ensures r != null ==> k.faults <= old(k.faults) + if name in old(k.s).dms then 1 else 0
    ensures r != null ==> fresh(r) && !r.cleared && r.name == name && k.leaks == old(k.leaks)
                          && k.s == WithDm(old(k.s), name, loopName)
    ensures r == null ==> k.s == old(k.s) || k.s == WithoutDm(old(k.s), name)
                          || (k.leaks > old(k.leaks) && k.s == WithDm(old(k.s), name, loopName))
  {
    ghost var a := k.s;
    if name in k.s.dms {
      var found := k.Probe();  // its path
      if found {
        var deleted := k.DeleteDm(name);
      }
    }
    r := null;
    var ok := k.CreateDm(name, loopName);
    if !ok {
      return;
    }
    assert k.s.dms == a.dms[name := loopName];
    var dev := new DmVerityDevice(name);
    ok := k.Probe();  // its path
    if ok {
      r := new DmVerityDevice.Empty();
      r.MoveFrom(dev);
    }
    dev.Destroy(k);
    assert k.s.dms == a.dms[name := loopName] || k.s.dms == a.dms - {name};
  }

  /** Mounting */

  // The kernel after a package was mounted, given its loop device.
  function OnTopOfLoop(a: KState, mountPoint: string, device: string, verity: bool, loopName: string): KState {
    if verity then MountOn(WithDm(a, device, loopName), mountPoint, OnDm(device))
    else MountOn(a, mountPoint, OnLoop(loopName))
  }

  // Nothing of a is lost in b but the named dm device; new are loop devices, that device, and a mount.
  ghost predicate Extends(a: KState, b: KState, mountPoint: string, device: string) {
    && (forall l | l in a.loops :: l in b.loops && b.loops[l] == a.loops[l])
    && (forall d | d in a.dms && d != device :: d in b.dms && b.dms[d] == a.dms[d])
    && (forall m | m in a.mounts :: m in b.mounts && b.mounts[m] == a.mounts[m])
    && b.mounts.Keys <= a.mounts.Keys + {mountPoint}
    && b.dirs - {mountPoint} == a.dirs - {mountPoint}
    && b.plain == a.plain && (mountPoint in a.mounts ==> b == a)
  }

  // What the mount point shows once the package is mounted: builtin packages are mounted from their loop device unless
  // dm-verity is forced on them, all others from the dm device on top of it.
  ghost predicate ShowsPackage(s: KState, cfg: Config, apex: Apex, mountPoint: string, device: string, loopName: string) {
    if apex.flattened then Top(s, mountPoint) == Some(Tree(apex.path))
    else if !cfg.verityOnSystem && ("/system/apex" <= apex.path || "/product/apex" <= apex.path) then
      Top(s, mountPoint) == Some(OnLoop(loopName))
    else Top(s, mountPoint) == Some(OnDm(device)) && device in s.dms && s.dms[device] == loopName
  }

  // The checks a package passes before its mount counts: flattened packages are not checked.
  ghost predicate Checked(before: seq<Check>, after: seq<Check>, cfg: Config, apex: Apex, mountPoint: string, device: string, verifyImage: bool) {
    if apex.flattened then after == before
    else if !verifyImage || (!cfg.verityOnSystem && ("/system/apex" <= apex.path || "/product/apex" <= apex.path)) then
      after == before + [VerityData(apex.path), MountedImage(apex.path, mountPoint)]
    else after == before + [VerityData(apex.path), Blocks(device), MountedImage(apex.path, mountPoint)]
  }

  lemma StepsAreChecked(before: seq<Check>, cfg: Config, apex: Apex, mountPoint: string, device: string, verifyImage: bool)
    requires !apex.flattened
    ensures var image := if OnVerity(cfg, apex) && verifyImage then [Blocks(device)] else [];
      Checked(before, before + [VerityData(apex.path)] + image + [MountedImage(apex.path, mountPoint)], cfg, apex, mountPoint, device, verifyImage)
  {
    hide IsBuiltin;
  }

  lemma OnTopOfLoopShows(a: KState, cfg: Config, apex: Apex, mountPoint: string, device: string, loopName: string)
    requires mountPoint !in a.mounts && !apex.flattened
    ensures ShowsPackage(OnTopOfLoop(a, mountPoint, device, OnVerity(cfg, apex), loopName), cfg, apex, mountPoint, device, loopName)
  {
    hide IsBuiltin;
  }

  ghost predicate OnTheWay(a: KState, b: KState, mountPoint: string, device: string) {
    b.loops == a.loops && Extends(a, b, mountPoint, device)
  }

  lemma StatesOnTheWay(a: KState, mountPoint: string, device: string, loopName: string)
    requires mountPoint !in a.mounts
    ensures var b := WithDm(a, device, loopName);
      && OnTheWay(a, a, mountPoint, device)
      && OnTheWay(a, WithoutDm(a, device), mountPoint, device)
      && OnTheWay(a, b, mountPoint, device)
      && OnTheWay(a, MountOn(a, mountPoint, OnLoop(loopName)), mountPoint, device)
      && OnTheWay(a, MountOn(b, mountPoint, OnDm(device)), mountPoint, device)
      && mountPoint !in b.mounts
    ensures var b := WithDm(a, device, loopName);
      && OnTopOfLoop(a, mountPoint, device, false, loopName) == MountOn(a, mountPoint, OnLoop(loopName))
      && OnTopOfLoop(a, mountPoint, device, true, loopName) == MountOn(b, mountPoint, OnDm(device))
  {
  }

  // The dm-verity part of mountNonFlattened.
  method PutOnVerity(k: Kernel, device: string, loopName: string, verityDev: DmVerityDevice) returns (ok: bool)
    requires verityDev.cleared
    modifies k`s, k`leaks, k`faults, verityDev
    ensures k.leaks >= old(k.leaks) && k.faults >= old(k.faults)
    ensures ok ==> !verityDev.cleared && verityDev.name == device && k.leaks == old(k.leaks) && k.s == WithDm(old(k.s), device, loopName)
                   && k.faults <= old(k.faults) + if device in old(k.s).dms then 1 else 0
    ensures !ok ==> k.faults + k.leaks > old(k.faults + k.leaks) && (!verityDev.cleared ==> verityDev.name == device)
    ensures !ok ==> k.s == old(k.s) || k.s == WithoutDm(old(k.s), device) || k.s == WithDm(old(k.s), device, loopName)
    ensures !ok && k.leaks == old(k.leaks) ==>
              if verityDev.cleared then k.s == old(k.s) || k.s == WithoutDm(old(k.s), device) else k.s == WithDm(old(k.s), device, loopName)
  {
    hide *;
    var created := CreateVerityDevice(k, device, loopName);
    if created == null {
      return false;
    }
    verityDev.MoveFrom(created);
    created.Destroy(k);
    ok := k.Probe();  // read-ahead
  }

  // The block device to mount: the loop device, or the dm device on top of it.
  method OpenBlock(k: Kernel, device: string, verity: bool, verifyImage: bool, loopName: string, verityDev: DmVerityDevice)
    returns (ok: bool, block: Source)
    requires verityDev.cleared
    modifies k`s, k`leaks, k`faults, k`passed, verityDev
    ensures k.leaks >= old(k.leaks) && k.faults >= old(k.faults)
    ensures ok ==> verityDev.cleared == !verity && (verity ==> verityDev.name == device) && k.leaks == old(k.leaks)
                   && k.s == (if verity then WithDm(old(k.s), device, loopName) else old(k.s))
                   && block == (if verity then OnDm(device) else OnLoop(loopName))
                   && k.passed == old(k.passed) + (if verity && verifyImage then [Blocks(device)] else [])
                   && k.faults <= old(k.faults) + if device in old(k.s).dms then 1 else 0
    ensures !ok ==> k.faults + k.leaks > old(k.faults + k.leaks) && (!verityDev.cleared ==> verityDev.name == device)
    ensures !ok ==> k.s == old(k.s) || k.s == WithoutDm(old(k.s), device) || k.s == WithDm(old(k.s), device, loopName)
    ensures !ok && k.leaks == old(k.leaks) ==>
              if verityDev.cleared then k.s == old(k.s) || k.s == WithoutDm(old(k.s), device) else k.s == WithDm(old(k.s), device, loopName)
  {
    hide *;
    block := OnLoop(loopName);
    if verity {
      ok := PutOnVerity(k, device, loopName, verityDev);
      if !ok {
        return;
      }
      block := OnDm(device);
    }
    ok := k.Probe();  // waiting for the block device
    if ok && verity && verifyImage {
      ok := k.Verify(Blocks(device));
    }
  }

  // The mount itself, taken back if the image is not what it should be.
  method MountVerified(k: Kernel, apex: Apex, block: Source, mountPoint: string) returns (ok: bool)
    requires mountPoint !in k.s.mounts
    modifies k`s, k`leaks, k`faults, k`passed
    ensures k.leaks >= old(k.leaks) && k.faults >= old(k.faults)
    ensures ok ==> k.s == MountOn(old(k.s), mountPoint, block) && k.leaks == old(k.leaks) && k.faults == old(k.faults)
                   && k.passed == old(k.passed) + [MountedImage(apex.path, mountPoint)]
    ensures !ok ==> k.s == old(k.s) || (k.leaks > old(k.leaks) && k.s == MountOn(old(k.s), mountPoint, block))
    ensures !ok ==> k.faults > old(k.faults) || mountPoint !in old(k.s).dirs
  {
    ghost var b := k.s;
    MountedThenUnmounted(b, mountPoint, block);
    ok := k.Mount(block, mountPoint);
    if !ok {
      return;
    }
    ok := k.Verify(MountedImage(apex.path, mountPoint));
    if !ok {
      var r := k.Umount(mountPoint);
    }
  }

  // mountNonFlattened once it has a loop device.
  method MountOnLoop(k: Kernel, cfg: Config, apex: Apex, mountPoint: string, device: string, verifyImage: bool,
                     loopDevice: LoopbackDeviceUniqueFd, verityDev: DmVerityDevice)
    returns (ok: bool)
    requires loopDevice.open && verityDev.cleared && mountPoint !in k.s.mounts && !apex.flattened
    modifies k`s, k`leaks, k`faults, k`passed, loopDevice, verityDev
    ensures k.leaks >= old(k.leaks) && k.faults >= old(k.faults)
    ensures !ok ==> k.faults + k.leaks > old(k.faults + k.leaks) || mountPoint !in old(k.s).dirs
    ensures loopDevice.name == old(loopDevice.name)
    ensures ok ==> !loopDevice.open && verityDev.cleared && k.leaks == old(k.leaks)
                   && k.s == OnTopOfLoop(old(k.s), mountPoint, device, OnVerity(cfg, apex), loopDevice.name)
    ensures !ok ==> loopDevice.open && (!verityDev.cleared ==> verityDev.name == device)
    ensures !ok && k.leaks == old(k.leaks) ==>
              if verityDev.cleared then k.s == old(k.s) || k.s == WithoutDm(old(k.s), device)
              else k.s == WithDm(old(k.s), device, loopDevice.name)
    ensures !ok ==> OnTheWay(old(k.s), k.s, mountPoint, device)
    ensures ok ==> Checked(old(k.passed), k.passed, cfg, apex, mountPoint, device, verifyImage)
    ensures ok ==> k.faults <= old(k.faults) + if device in old(k.s).dms then 1 else 0
  {
    ghost var a := k.s;
    ghost var image := if OnVerity(cfg, apex) && verifyImage then [Blocks(device)] else [];
    StepsAreChecked(k.passed, cfg, apex, mountPoint, device, verifyImage);
    assert k.passed + [VerityData(apex.path)] + [] == k.passed + [VerityData(apex.path)];
    var verity := OnVerity(cfg, apex);
    StatesOnTheWay(a, mountPoint, device, loopDevice.name);
    hide *;
    ok := k.Verify(VerityData(apex.path));
    if !ok {
      return;
    }
    var block;
    ok, block := OpenBlock(k, device, verity, verifyImage, loopDevice.name, verityDev);
    if !ok {
      return;
    }
    ok := MountVerified(k, apex, block, mountPoint);
    if !ok {
      return;
    }
    if verity {
      verityDev.Release();
    }
    loopDevice.CloseGood();
  }

  lemma MountedThenUnmounted(a: KState, dir: string, source: Source)
    ensures dir !in a.mounts ==> UnmountTop(MountOn(a, dir, source), dir) == a
  {
    if dir !in a.mounts {
      assert a.mounts[dir := [source]] - {dir} == a.mounts;
    }
  }

  // The record of a mounted package agrees with the kernel.
  predicate Backed(s: KState, d: MountedApexData) {
    && d.mountPoint in s.mounts && |s.mounts[d.mountPoint]| == 1
    && match s.mounts[d.mountPoint][0]
       case Tree(path) => d.loopName == "" && path == d.fullPath
       case OnLoop(l) => l == d.loopName && HoldsFile(s, d)
       case OnDm(n) => n == d.deviceName && n in s.dms && s.dms[n] == d.loopName && HoldsFile(s, d)
  }

  predicate HoldsFile(s: KState, d: MountedApexData) {
    d.loopName != "" && d.loopName in s.loops && s.loops[d.loopName] == Loop(d.fullPath, true)
  }

  // b is a with some loop device attached to the file.
  ghost predicate LoopHeld(a: KState, b: KState, loopName: string, file: string) {
    MoreLoops(a, b) && loopName !in a.loops && loopName != "" && loopName in b.loops && b.loops[loopName] == Loop(file, true)
  }

  lemma HeldThenMounted(a: KState, b: KState, loopName: string, apex: Apex, mountPoint: string, device: string, verity: bool)
    requires LoopHeld(a, b, loopName, apex.path) && mountPoint !in a.mounts
    ensures var c := OnTopOfLoop(b, mountPoint, device, verity, loopName);
      Backed(c, MountedApexData(loopName, apex.path, mountPoint, device)) && Extends(a, c, mountPoint, device)
  {
  }

  lemma HeldThenLost(a: KState, b: KState, c: KState, loopName: string, file: string, mountPoint: string, device: string)
    requires LoopHeld(a, b, loopName, file) && mountPoint !in a.mounts
    requires OnTheWay(b, c, mountPoint, device)
    ensures forall loopGone, dmGone, dmName | dmGone ==> dmName == device ::
              Extends(a, WithoutOwned(c, loopGone, loopName, dmGone, dmName), mountPoint, device)
  {
  }

  lemma MoreLoopsExtends(a: KState, b: KState, mountPoint: string, device: string)
    requires MoreLoops(a, b) && mountPoint !in a.mounts
    ensures Extends(a, b, mountPoint, device)
  {
  }

  lemma HeldThenReleased(a: KState, loopName: string, loop: Loop, device: string)
    requires loopName !in a.loops
    ensures var b := WithLoop(a, loopName, loop);
      && (forall dmName :: WithoutOwned(b, true, loopName, false, dmName) == a)
      && WithoutOwned(WithoutDm(b, device), true, loopName, false, "") == WithoutDm(a, device)
      && WithoutOwned(WithDm(b, device, loopName), true, loopName, true, device) == WithoutDm(a, device)
    ensures Grounded(a) ==> var b := WithLoop(a, loopName, loop);
      && (forall dmName :: !LoopInUse(WithoutOwned(b, false, "", false, dmName), loopName)
                        && !LoopInUse(WithoutOwned(WithoutDm(b, device), false, "", false, dmName), loopName))
      && !LoopInUse(WithoutOwned(WithDm(b, device, loopName), false, "", true, device), loopName)
  {
    assert Grounded(a) ==> forall d | d in a.dms :: a.dms[d] != loopName;
    assert a.loops[loopName := loop] - {loopName} == a.loops;
    assert a.dms[device := loopName] - {device} == a.dms - {device};
  }

  // Failed: as before, but for a dm device of that name that was in the way.
  predicate Stale(a: KState, b: KState, device: string) {
    b == a || b == WithoutDm(a, device)
  }

  method MountNonFlattened(k: Kernel, cfg: Config, apex: Apex, mountPoint: string, device: string, verifyImage: bool)
    returns (r: Option<MountedApexData>)
    requires mountPoint !in k.s.mounts && !apex.flattened
    modifies k`s, k`faults, k`leaks, k`inverted, k`passed
    ensures k.leaks >= old(k.leaks) && Extends(old(k.s), k.s, mountPoint, device)
    ensures r.Some? ==> ShowsPackage(k.s, cfg, apex, mountPoint, device, r.value.loopName)
                        && Checked(old(k.passed), k.passed, cfg, apex, mountPoint, device, verifyImage) && k.faults <= old(k.faults) + 9
    ensures r.Some? ==> r.value == MountedApexData(r.value.loopName, apex.path, mountPoint, device)
                        && r.value.loopName !in old(k.s).loops && r.value.loopName != "" && Backed(k.s, r.value)
    ensures r.Some? && k.leaks == old(k.leaks) ==>
              var held := WithLoop(old(k.s), r.value.loopName, Loop(apex.path, true));
              k.s == OnTopOfLoop(held, mountPoint, device, OnVerity(cfg, apex), r.value.loopName)
    ensures r.None? && k.leaks == old(k.leaks) ==> Stale(old(k.s), k.s, device)
    ensures Grounded(old(k.s)) && k.leaks == old(k.leaks) ==> k.inverted == old(k.inverted)
    ensures r.Some? ==> cfg.updatable
    ensures k.faults >= old(k.faults)
    ensures r.None? ==> !cfg.updatable || k.faults + k.leaks > old(k.faults + k.leaks) || mountPoint !in old(k.s).dirs
  {
    ghost var a := k.s;
    assert MoreLoops(a, a);
    MoreLoopsExtends(a, a, mountPoint, device);
    hide *;
    r := None;
    if !cfg.updatable {
      Unchanged(a, device);
      return;
    }
    var loopDevice := new LoopbackDeviceUniqueFd.Empty();
    var ok := AcquireLoop(k, apex.path, loopDevice);
    if !ok {
      MoreLoopsExtends(a, k.s, mountPoint, device);
      Unchanged(a, device);
      loopDevice.Destroy(k);
      return;
    }
    r := MountHeld(k, cfg, apex, mountPoint, device, verifyImage, loopDevice, a);
  }

  lemma Unchanged(a: KState, device: string)
    ensures Stale(a, a, device)
  {
  }

  function WithoutOwned(s: KState, loopHeld: bool, loopName: string, dmHeld: bool, dmName: string): KState {
    var t := if dmHeld then WithoutDm(s, dmName) else s;
    if loopHeld then WithoutLoop(t, loopName) else t
  }

  // The destructors at the end of mountNonFlattened, in the reverse order of the declarations.
  method DestroyOwners(k: Kernel, loopDevice: LoopbackDeviceUniqueFd, verityDev: DmVerityDevice)
    modifies k`s, k`leaks, k`inverted, loopDevice`open, verityDev`cleared
    ensures k.leaks >= old(k.leaks)
    ensures exists loopGone, dmGone :: (loopGone ==> old(loopDevice.open)) && (dmGone ==> !old(verityDev.cleared))
              && k.s == WithoutOwned(old(k.s), loopGone, loopDevice.name, dmGone, verityDev.name)
    ensures k.leaks == old(k.leaks) ==>
              k.s == WithoutOwned(old(k.s), old(loopDevice.open), loopDevice.name, !old(verityDev.cleared), verityDev.name)
    ensures k.leaks == old(k.leaks) && k.inverted != old(k.inverted) ==> old(loopDevice.open)
    ensures k.leaks == old(k.leaks) && k.inverted != old(k.inverted) ==>
              LoopInUse(WithoutOwned(old(k.s), false, "", !old(verityDev.cleared), verityDev.name), loopDevice.name)
    ensures !old(loopDevice.open) && old(verityDev.cleared) ==> k.leaks == old(k.leaks)
  {
    ghost var a := k.s;
    verityDev.Destroy(k);
    ghost var b := k.s;
    ghost var dmGone := !old(verityDev.cleared) && b == WithoutDm(a, verityDev.name);
    assert b == WithoutOwned(a, false, "", dmGone, verityDev.name);
    loopDevice.Destroy(k);
    ghost var loopGone := old(loopDevice.open) && k.s == WithoutLoop(b, loopDevice.name);
    assert k.s == WithoutOwned(a, loopGone, loopDevice.name, dmGone, verityDev.name);
  }

  // The rest of mountNonFlattened: the owners' destructors run on every exit.
  method MountHeld(k: Kernel, cfg: Config, apex: Apex, mountPoint: string, device: string, verifyImage: bool,
                   loopDevice: LoopbackDeviceUniqueFd, ghost a: KState)
    returns (r: Option<MountedApexData>)
    requires loopDevice.open && LoopHeld(a, k.s, loopDevice.name, apex.path) && mountPoint !in a.mounts && !apex.flattened
    modifies k`s, k`faults, k`leaks, k`inverted, k`passed, loopDevice
    ensures k.leaks >= old(k.leaks) && Extends(a, k.s, mountPoint, device)
    ensures k.faults >= old(k.faults)
    ensures r.None? ==> k.faults + k.leaks > old(k.faults + k.leaks) || mountPoint !in old(k.s).dirs
    ensures r.Some? ==> r.value == MountedApexData(old(loopDevice.name), apex.path, mountPoint, device) && Backed(k.s, r.value)
                        && k.s == OnTopOfLoop(old(k.s), mountPoint, device, OnVerity(cfg, apex), old(loopDevice.name))
                        && ShowsPackage(k.s, cfg, apex, mountPoint, device, old(loopDevice.name))
                        && Checked(old(k.passed), k.passed, cfg, apex, mountPoint, device, verifyImage)
                        && k.faults <= old(k.faults) + if device in old(k.s).dms then 1 else 0
    ensures r.None? && k.leaks == old(k.leaks) && old(k.s) == WithLoop(a, old(loopDevice.name), Loop(apex.path, true)) ==>
              Stale(a, k.s, device)
    ensures Grounded(a) && k.leaks == old(k.leaks) && old(k.s) == WithLoop(a, old(loopDevice.name), Loop(apex.path, true)) ==>
              k.inverted == old(k.inverted)
  {
    ghost var b, l := k.s, loopDevice.name;
    HeldThenMounted(a, b, l, apex, mountPoint, device, OnVerity(cfg, apex));
    HeldThenReleased(a, l, Loop(apex.path, true), device);
    OnTopOfLoopShows(b, cfg, apex, mountPoint, device, l);
    assert mountPoint !in b.mounts;
    hide *;
    var data := MountedApexData(loopDevice.name, apex.path, mountPoint, device);
    var verityDev := new DmVerityDevice.Empty();
    var ok := MountOnLoop(k, cfg, apex, mountPoint, device, verifyImage, loopDevice, verityDev);
    if !ok {
      HeldThenLost(a, b, k.s, l, apex.path, mountPoint, device);
    }
    Unchanged(a, device);
    StaleDm(a, device);
    DestroyOwners(k, loopDevice, verityDev);
    r := if ok then Some(data) else None;
  }

  lemma StaleDm(a: KState, device: string)
    ensures Stale(a, WithoutDm(a, device), device)
  {
  }

  method MountFlattened(k: Kernel, apex: Apex, mountPoint: string) returns (r: Option<MountedApexData>)
    modifies k`s, k`faults
    ensures k.faults >= old(k.faults) && (r.Some? ==> k.faults == old(k.faults))
    ensures r.None? ==> k.faults > old(k.faults) || !("/system/apex" <= apex.path || "/product/apex" <= apex.path) || mountPoint !in old(k.s).dirs
    ensures r.Some? ==> ("/system/apex" <= apex.path || "/product/apex" <= apex.path)
                        && r.value == MountedApexData("", apex.path, mountPoint, "")
                        && k.s == MountOn(old(k.s), mountPoint, Tree(apex.path))
    ensures r.None? ==> k.s == old(k.s)
  {
    if !IsBuiltin(apex.path) {
      return None;
    }
    var ok := k.Mount(Tree(apex.path), mountPoint);
    r := if ok then Some(MountedApexData("", apex.path, mountPoint, "")) else None;
  }

  // Flattened packages must be builtin, others need an updatable device.
  predicate KindFits(cfg: Config, apex: Apex) {
    if apex.flattened then "/system/apex" <= apex.path || "/product/apex" <= apex.path else cfg.updatable
  }

  // What a mount needs: the right kind of package and a mount point that is free.
  predicate Mountable(s: KState, cfg: Config, apex: Apex, mountPoint: string) {
    KindFits(cfg, apex) && mountPoint !in s.mounts && mountPoint !in s.plain
  }

  // The mount once the directory is there and empty.
  method MountOnDir(k: Kernel, cfg: Config, apex: Apex, mountPoint: string, device: string, verifyImage: bool)
    returns (r: Option<MountedApexData>)
    requires mountPoint !in k.s.mounts
    modifies k`s, k`faults, k`leaks, k`inverted, k`passed
    ensures k.leaks >= old(k.leaks) && Extends(old(k.s), k.s, mountPoint, device)
    ensures r.Some? ==> MountedRight(old(k.s), k.s, cfg, apex, mountPoint, device, r.value)
                        && ShowsPackage(k.s, cfg, apex, mountPoint, device, r.value.loopName)
                        && Checked(old(k.passed), k.passed, cfg, apex, mountPoint, device, verifyImage) && k.faults <= old(k.faults) + 9
    ensures r.Some? && k.leaks == old(k.leaks) ==>
              MountedExactly(old(k.s), k.s, cfg, apex, mountPoint, device, r.value.loopName)
    ensures r.None? && k.leaks == old(k.leaks) ==> Stale(old(k.s), k.s, device)
    ensures Grounded(old(k.s)) && k.leaks == old(k.leaks) ==> k.inverted == old(k.inverted)
    ensures k.faults >= old(k.faults)
    ensures r.None? ==> !KindFits(cfg, apex) || k.faults + k.leaks > old(k.faults + k.leaks) || mountPoint !in old(k.s).dirs
  {
    if apex.flattened {
      r := MountFlattened(k, apex, mountPoint);
    } else {
      hide Extends, Stale, OnTopOfLoop, OnVerity, IsBuiltin;
      r := MountNonFlattened(k, cfg, apex, mountPoint, device, verifyImage);
    }
  }

  // What a successful mount reports.
  ghost predicate MountedRight(a: KState, b: KState, cfg: Config, apex: Apex, mountPoint: string, device: string, d: MountedApexData) {
    && mountPoint !in a.mounts && Backed(b, d)
    && if apex.flattened then
         d == MountedApexData("", apex.path, mountPoint, "") && ("/system/apex" <= apex.path || "/product/apex" <= apex.path)
       else d == MountedApexData(d.loopName, apex.path, mountPoint, device) && d.loopName !in a.loops && d.loopName != "" && cfg.updatable
  }

  // What it adds to the kernel; the directory is there already.
  ghost predicate MountedExactly(a: KState, b: KState, cfg: Config, apex: Apex, mountPoint: string, device: string, loopName: string) {
    b == if apex.flattened then MountOn(a, mountPoint, Tree(apex.path))
         else OnTopOfLoop(WithLoop(a, loopName, Loop(apex.path, true)), mountPoint, device, OnVerity(cfg, apex), loopName)
  }

  // Nothing is left behind.  The directory may be gone even if it was there before.
  predicate Cleared(a: KState, b: KState, mountPoint: string, device: string) {
    && b.loops == a.loops && b.mounts == a.mounts
    && (b.dms == a.dms || b.dms == a.dms - {device})
    && (b.dirs == a.dirs || b.dirs == a.dirs - {mountPoint}) && b.plain == a.plain
  }

  /** MountPackageImpl: a failure that leaks nothing leaves the kernel as it was, and a success
      adds one loop device, one dm device where verity applies, and one mount. */
  method MountPackageImpl(k: Kernel, cfg: Config, apex: Apex, mountPoint: string, device: string, verifyImage: bool)
    returns (r: Option<MountedApexData>)
    modifies k`s, k`faults, k`leaks, k`inverted, k`passed
    ensures k.leaks >= old(k.leaks) && Extends(old(k.s), k.s, mountPoint, device)
    ensures r.Some? ==> MountedRight(old(k.s), k.s, cfg, apex, mountPoint, device, r.value)
                        && ShowsPackage(k.s, cfg, apex, mountPoint, device, r.value.loopName)
                        && Checked(old(k.passed), k.passed, cfg, apex, mountPoint, device, verifyImage) && k.faults <= old(k.faults) + 9
    ensures r.Some? && k.leaks == old(k.leaks) ==>
              MountedExactly(WithDir(old(k.s), mountPoint), k.s, cfg, apex, mountPoint, device, r.value.loopName)
    ensures r.None? && k.leaks == old(k.leaks) ==> Cleared(old(k.s), k.s, mountPoint, device)
    ensures Grounded(old(k.s)) && k.leaks == old(k.leaks) ==> k.inverted == old(k.inverted)
    ensures k.faults >= old(k.faults)
    ensures r.Some? ==> Mountable(old(k.s), cfg, apex, mountPoint)
    ensures r.None? ==> !Mountable(old(k.s), cfg, apex, mountPoint) || k.faults + k.leaks > old(k.faults + k.leaks)
  {
    ghost var a := k.s;
    r := None;
    DirStates(a, mountPoint, device);
    MountableFacts(a, cfg, apex, mountPoint);
    hide *;
    var ok := k.Probe();  // PathExists
    if !ok {
      return;
    }
    if mountPoint !in k.s.dirs && mountPoint !in k.s.mounts && mountPoint !in k.s.plain {
      ok := k.Mkdir(mountPoint);
      if !ok {
        return;
      }
    }
    ghost var b := k.s;
    ok := k.Probe();  // ReadDir
    if ok && mountPoint !in k.s.mounts && mountPoint !in k.s.plain {
      r := MountOnDir(k, cfg, apex, mountPoint, device, verifyImage);
      DirMadeThenMounted(a, b, k.s, cfg, apex, mountPoint, device, r);
    }
    if r.None? {
      DirRemoved(a, b, k.s, mountPoint, device);
      var removed := k.Rmdir(mountPoint);
    }
  }

  lemma MountableFacts(a: KState, cfg: Config, apex: Apex, mountPoint: string)
    ensures Mountable(a, cfg, apex, mountPoint) <==>
              KindFits(cfg, apex) && mountPoint !in a.mounts && mountPoint !in a.plain
    ensures WithDir(a, mountPoint).plain == a.plain && mountPoint in WithDir(a, mountPoint).dirs
  {
  }

  lemma DirStates(a: KState, mountPoint: string, device: string)
    ensures Extends(a, a, mountPoint, device) && Cleared(a, a, mountPoint, device)
    ensures mountPoint in a.dirs ==> WithDir(a, mountPoint) == a
    ensures mountPoint !in a.mounts ==> Extends(a, WithDir(a, mountPoint), mountPoint, device)
    ensures WithDir(a, mountPoint).loops == a.loops && WithDir(a, mountPoint).dms == a.dms && WithDir(a, mountPoint).mounts == a.mounts
  {
    if mountPoint in a.dirs {
      assert a.dirs + {mountPoint} == a.dirs;
    }
  }

  lemma DirMadeThenMounted(a: KState, b: KState, c: KState, cfg: Config, apex: Apex, mountPoint: string, device: string,
                           r: Option<MountedApexData>)
    requires b == a || b == WithDir(a, mountPoint)
    requires mountPoint !in b.mounts && Extends(b, c, mountPoint, device)
    ensures Extends(a, c, mountPoint, device) && (Grounded(a) <==> Grounded(b))
    ensures r.Some? && MountedRight(b, c, cfg, apex, mountPoint, device, r.value) ==>
              MountedRight(a, c, cfg, apex, mountPoint, device, r.value)
  {
  }

  lemma DirRemoved(a: KState, b: KState, c: KState, mountPoint: string, device: string)
    requires b == a || b == WithDir(a, mountPoint)
    requires c == b || mountPoint !in a.mounts
    requires Extends(a, c, mountPoint, device) || c == b
    ensures mountPoint in a.mounts ==> b == a ==> Extends(a, c, mountPoint, device)
    ensures Stale(b, c, device) ==> Cleared(a, WithoutDir(c, mountPoint), mountPoint, device)
    ensures mountPoint !in a.mounts ==> Extends(a, WithoutDir(c, mountPoint), mountPoint, device)
    ensures b == a && Stale(b, c, device) ==> Cleared(a, c, mountPoint, device)
    ensures Stale(b, b, device)
  {
    assert a.dirs + {mountPoint} - {mountPoint} == a.dirs - {mountPoint};
  }

  /** Unmounting */

  predicate Tagged(s: KState, loopName: string) {
    loopName != "" && loopName in s.loops && s.loops[loopName].tagged
  }

  function Dismounted(s: KState, mountPoint: string): KState {
    var t := UnmountTop(s, mountPoint);
    if mountPoint in t.mounts then t else WithoutDir(t, mountPoint)
  }

  function Freed(s: KState, d: MountedApexData): KState {
    var t := if d.deviceName != "" then WithoutDm(s, d.deviceName) else s;
    if Tagged(s, d.loopName) then WithoutLoop(t, d.loopName) else t
  }

  // The kernel once a package is unmounted.
  function Unmounted(s: KState, d: MountedApexData): KState {
    Freed(Dismounted(s, d.mountPoint), d)
  }

  // Nothing but what belongs to d is gone from a, and nothing new is in b.
  ghost predicate Shrinks(a: KState, b: KState, d: MountedApexData) {
    && b.loops.Keys <= a.loops.Keys && (forall l | l in a.loops && (l != d.loopName || l == "") :: l in b.loops)
    && (forall l | l in b.loops :: b.loops[l] == a.loops[l])
    && b.dms.Keys <= a.dms.Keys && (forall n | n in a.dms && (n != d.deviceName || n == "") :: n in b.dms)
    && (forall n | n in b.dms :: b.dms[n] == a.dms[n])
    && b.mounts.Keys <= a.mounts.Keys && (forall m | m in a.mounts && m != d.mountPoint :: m in b.mounts && b.mounts[m] == a.mounts[m])
    && b.dirs - {d.mountPoint} == a.dirs - {d.mountPoint} && b.plain == a.plain
  }

  // Only the device of d sits on the loop device of d.
  ghost predicate OwnsLoop(s: KState, d: MountedApexData) {
    forall n | n in s.dms && s.dms[n] == d.loopName && d.loopName != "" :: n == d.deviceName && n != ""
  }

  method Unmount(k: Kernel, d: MountedApexData) returns (ok: bool)
    modifies k`s, k`leaks, k`inverted
    ensures k.leaks >= old(k.leaks) && Shrinks(old(k.s), k.s, d)
    ensures !ok ==> k.leaks > old(k.leaks) && k.s == old(k.s)
    ensures ok ==> k.s.mounts == UnmountTop(old(k.s), d.mountPoint).mounts
    ensures k.leaks == old(k.leaks) ==> k.s == Unmounted(old(k.s), d)
    ensures k.leaks == old(k.leaks) && d.loopName != "" ==>
              (d.loopName in k.s.loops <==> d.loopName in old(k.s).loops && !old(k.s).loops[d.loopName].tagged)
    ensures OwnsLoop(old(k.s), d) && k.leaks == old(k.leaks) ==> k.inverted == old(k.inverted)
  {
    ghost var a := k.s;
    if d.loopName != "" {
      UnmountedLoops(a, d);
    }
    var r := k.Umount(d.mountPoint);
    if r == Failed {
      return false;
    }
    NotMountedBefore(a, d.mountPoint);
    ghost var b := k.s;
    var removed := k.Rmdir(d.mountPoint);
    assert k.leaks == old(k.leaks) ==> k.s == Dismounted(a, d.mountPoint);
    DirGone(a, b, k.s, d);
    hide Shrinks, Unmounted, Dismounted, UnmountTop, OwnsLoop;
    FreeDevices(k, d, a);
    ok := true;
  }

  lemma UnmountedLoops(a: KState, d: MountedApexData)
    requires d.loopName != ""
    ensures d.loopName in Unmounted(a, d).loops <==> d.loopName in a.loops && !a.loops[d.loopName].tagged
  {
  }

  lemma NotMountedBefore(a: KState, dir: string)
    ensures dir !in a.mounts ==> UnmountTop(a, dir) == a
  {
    assert dir !in a.mounts ==> a.mounts - {dir} == a.mounts;
  }

  lemma DirGone(a: KState, b: KState, c: KState, d: MountedApexData)
    requires b == a || b == UnmountTop(a, d.mountPoint)
    requires c == b || c == WithoutDir(b, d.mountPoint)
    ensures Shrinks(a, c, d) && (OwnsLoop(a, d) <==> OwnsLoop(c, d))
  {
  }

  // The last part of Unmount: the dm device first, then the loop device.
  method FreeDevices(k: Kernel, d: MountedApexData, ghost a: KState)
    requires Shrinks(a, k.s, d)
    modifies k`s, k`leaks, k`inverted
    ensures k.leaks >= old(k.leaks) && Shrinks(a, k.s, d) && k.s.mounts == old(k.s).mounts
    ensures k.leaks == old(k.leaks) ==> k.s == Freed(old(k.s), d)
    ensures OwnsLoop(old(k.s), d) && k.leaks == old(k.leaks) ==> k.inverted == old(k.inverted)
  {
    if d.deviceName != "" {
      var deleted := k.DeleteDm(d.deviceName);
      assert deleted == NothingThere ==> k.s.dms - {d.deviceName} == k.s.dms;
    }
    if Tagged(k.s, d.loopName) {
      var cleared := k.ClearLoop(d.loopName);
    }
  }

  ghost predicate AddedFields(a: KState, b: KState, cfg: Config, apex: Apex, device: string, d: MountedApexData) {
    && d.mountPoint !in a.mounts && (exists source :: b.mounts == a.mounts[d.mountPoint := [source]])
    && b.dirs == a.dirs + {d.mountPoint} && b.plain == a.plain
    && b.loops == (if apex.flattened then a.loops else a.loops[d.loopName := Loop(apex.path, true)])
    && b.dms == (if !apex.flattened && OnVerity(cfg, apex) then a.dms[device := d.loopName] else a.dms)
  }

  lemma MountAddsFields(a: KState, b: KState, cfg: Config, apex: Apex, mountPoint: string, device: string, d: MountedApexData)
    requires MountedRight(a, b, cfg, apex, mountPoint, device, d)
    requires MountedExactly(WithDir(a, mountPoint), b, cfg, apex, mountPoint, device, d.loopName)
    ensures AddedFields(a, b, cfg, apex, device, d)
  {
    var source := b.mounts[mountPoint][0];
    assert [] + [source] == [source];
    assert b.mounts == a.mounts[mountPoint := [source]];
  }

  lemma UnmountTakesFields(b: KState, d: MountedApexData)
    requires |Stack(b, d.mountPoint)| <= 1
    ensures var c := Unmounted(b, d);
      && c.mounts == b.mounts - {d.mountPoint} && c.dirs == b.dirs - {d.mountPoint} && c.plain == b.plain
      && c.loops == (if Tagged(b, d.loopName) then b.loops - {d.loopName} else b.loops)
      && c.dms == (if d.deviceName != "" then b.dms - {d.deviceName} else b.dms)
  {
  }

  /** Theorem: unmounting the record of a mount undoes the mount. */
  lemma UnmountUndoesMount(a: KState, b: KState, cfg: Config, apex: Apex, mountPoint: string, device: string, d: MountedApexData)
    requires MountedRight(a, b, cfg, apex, mountPoint, device, d) && device != ""
    requires MountedExactly(WithDir(a, mountPoint), b, cfg, apex, mountPoint, device, d.loopName)
    ensures Cleared(a, Unmounted(b, d), mountPoint, device)
    ensures device !in a.dms ==> Unmounted(b, d).dms == a.dms
    ensures Grounded(a) ==> OwnsLoop(b, d)
  {
    MountAddsFields(a, b, cfg, apex, mountPoint, device, d);
    UnmountTakesFields(b, d);
    hide Unmounted, MountedExactly, OnVerity, WithDir;
    assert (a.dirs + {mountPoint}) - {mountPoint} == a.dirs - {mountPoint};
    assert b.mounts - {mountPoint} == a.mounts;
    assert b.dms - {device} == a.dms - {device};
    assert device !in a.dms ==> a.dms - {device} == a.dms;
    assert !apex.flattened ==> b.loops - {d.loopName} == a.loops;
  }

  // Everything of a is still there, but perhaps the named dm device.
  ghost predicate Keeps(a: KState, b: KState, device: string) {
    && (forall l | l in a.loops :: l in b.loops && b.loops[l] == a.loops[l])
    && (forall d | d in a.dms && d != device :: d in b.dms && b.dms[d] == a.dms[d])
    && (forall m | m in a.mounts :: m in b.mounts && b.mounts[m] == a.mounts[m])
  }

  lemma MountedThenShrunk(a: KState, b: KState, c: KState, cfg: Config, apex: Apex, mountPoint: string, device: string, d: MountedApexData)
    requires Extends(a, b, mountPoint, device) && MountedRight(a, b, cfg, apex, mountPoint, device, d) && Shrinks(b, c, d)
    ensures Keeps(a, c, device)
  {
  }

  lemma ExtendsKeeps(a: KState, b: KState, mountPoint: string, device: string)
    requires Extends(a, b, mountPoint, device)
    ensures Keeps(a, b, device)
  {
  }

  /** RunVerifyFnInsideTempMount: whatever verifying says, no loop device, dm device or mount remains. */
  method RunVerifyFnInsideTempMount(k: Kernel, cfg: Config, apex: Apex, verifyOk: bool) returns (ok: bool)
    modifies k`s, k`faults, k`leaks, k`inverted, k`passed
    ensures k.leaks >= old(k.leaks) && (ok ==> verifyOk)
    ensures k.leaks == old(k.leaks) ==>
              Cleared(old(k.s), k.s, TempMountPoint(apex.manifest), TempDeviceName(apex.manifest))
    ensures k.leaks == old(k.leaks) && TempDeviceName(apex.manifest) !in old(k.s).dms ==>
              k.s == old(k.s).(dirs := k.s.dirs)
    ensures Grounded(old(k.s)) && k.leaks == old(k.leaks) ==> k.inverted == old(k.inverted)
    ensures Keeps(old(k.s), k.s, TempDeviceName(apex.manifest)) && k.faults >= old(k.faults)
    ensures ok ==> Mountable(old(k.s), cfg, apex, TempMountPoint(apex.manifest))
                   && Checked(old(k.passed), k.passed, cfg, apex, TempMountPoint(apex.manifest), TempDeviceName(apex.manifest), true)
    ensures !ok ==> !verifyOk || !Mountable(old(k.s), cfg, apex, TempMountPoint(apex.manifest)) || k.faults + k.leaks > old(k.faults + k.leaks)
  {
    var mountPoint, device := TempMountPoint(apex.manifest), TempDeviceName(apex.manifest);
    assert device != "";
    ghost var a := k.s;
    assert device !in a.dms ==> a.dms - {device} == a.dms;
    hide MountedRight, MountedExactly, Unmounted, Extends, Shrinks, OwnsLoop, WithDir, Grounded, Keeps, Checked, ShowsPackage;
    var r := MountPackageImpl(k, cfg, apex, mountPoint, device, true);
    ExtendsKeeps(a, k.s, mountPoint, device);
    ghost var b := k.s;
    if r.None? {
      return false;
    }
    ok := verifyOk;
    if k.leaks == old(k.leaks) {
      UnmountUndoesMount(a, k.s, cfg, apex, mountPoint, device, r.value);
    }
    var unmounted := Unmount(k, r.value);
    MountedThenShrunk(a, b, k.s, cfg, apex, mountPoint, device, r.value);
  }
}
