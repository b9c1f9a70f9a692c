// stagePackages as a sequence of file operations: link, undo on failure, then prune.
module StagePackages {
  import opened Lifecycle
  import opened DeviceModel
  import opened Submit
  import opened Staging

  ghost function WithActive(w: World, files: Dir): World {
    w.(disk := w.disk.(dirs := w.disk.dirs[Active := files]))
  }

  function Links(files: seq<Inode>): seq<Action> {
    seq(|files|, i requires 0 <= i < |files| => Link(Active, DestName(files[i]), files[i]))
  }

  /** The rule that no step leaves one of these packages without a file */

  ghost predicate Serves(w: World, packages: set<string>) {
    packages <= PackagesIn(Contents(w.disk, Active))
  }

  ghost function NoGap(packages: set<string>): (World, Action) -> bool {
    (w: World, a: Action) => Serves(Apply(w, a), packages)
  }

  lemma IncludesServes(w: World, base: Dir)
    requires Active in w.disk.dirs && Includes(w.disk.dirs[Active], base)
    ensures Serves(w, PackagesIn(base))
  {
  }

  // Removing files outside a base that serves the packages leaves no gap.
  lemma UnlinksLeaveNoGap(w: World, base: Dir, names: seq<string>, packages: set<string>)
    requires Active in w.disk.dirs && Includes(w.disk.dirs[Active], base)
    requires forall n | n in names :: n !in base
    requires packages <= PackagesIn(base)
    ensures Follows(NoGap(packages), w, Unlinks(Active, names))
  {
    var log := Unlinks(Active, names);
    forall k | 0 <= k < |log|
      ensures NoGap(packages)(Replay(w, log[..k]), log[k])
    {
      assert log[..k] == Unlinks(Active, names[..k]) && log[..k + 1] == Unlinks(Active, names[..k + 1]);
      OneMoreUnlink(w, Active, map[], names, k);
      UnlinksReplay(w, Active, names[..k + 1]);
      IncludesServes(Replay(w, log[..k + 1]), base);
    }
  }

  lemma LinkableNext(active: Dir, files: seq<Inode>, f: Inode)
    requires Linkable(active, files) && IsApex(f) && DestName(f) !in active && DestName(f) !in DestNames(files)
    ensures Linkable(active, files + [f])
  {
    forall i | 0 <= i < |files|
      ensures DestName(files[i]) != DestName(f)
    {
      assert files[i] in files;
    }
  }

  // One more link on top of those made.
  lemma OneMoreLink(w: World, active: Dir, files: seq<Inode>, f: Inode)
    requires Linkable(active, files) && IsApex(f) && DestName(f) !in LinkAll(active, files)
    ensures var link := Link(Active, DestName(f), f);
      && Linkable(active, files + [f])
      && LinkAll(active, files + [f]) == LinkAll(active, files)[DestName(f) := f]
      && Links(files + [f]) == Links(files) + [link]
      && Permitted(WithActive(w, LinkAll(active, files)), link)
      && Apply(WithActive(w, LinkAll(active, files)), link) == WithActive(w, LinkAll(active, files + [f]))
  {
    LinkAllContents(active, files);
    LinkableNext(active, files, f);
    hide Linkable, Inv, DistinctDests;
    assert (files + [f])[..|files|] == files;
    var link := Link(Active, DestName(f), f);
    assert Links(files + [f]) == Links(files) + [link];
    var before, after := LinkAll(active, files), LinkAll(active, files + [f]);
    assert w.disk.dirs[Active := before][Active := after] == w.disk.dirs[Active := after];
  }

  lemma {:induction false} LinksReplay(w: World, files: seq<Inode>)
    requires Active in w.disk.dirs && Linkable(w.disk.dirs[Active], files)
    ensures Replay(w, Links(files)) == WithActive(w, LinkAll(w.disk.dirs[Active], files))
    ensures Follows(NoGap(PackagesIn(w.disk.dirs[Active])), w, Links(files))
  {
    var active := w.disk.dirs[Active];
    if files == [] {
      assert w.disk.dirs[Active := active] == w.disk.dirs;
    } else {
      var init, last := files[..|files| - 1], files[|files| - 1];
      assert files == init + [last];
      LinkableInit(active, init, last);
      LinkAllContents(active, init);
      LinkAllContents(active, files);
      LinksReplay(w, init);
      OneMoreLink(w, active, init, last);
      hide Linkable, LinkAll, Links, DestNames, Permitted, DistinctDests, Replay, Apply;
      var link := Link(Active, DestName(last), last);
      ReplayOne(w, Links(init), link);
      IncludesServes(Replay(w, Links(files)), active);
      FollowsOne(NoGap(PackagesIn(active)), w, Links(init), link);
    }
  }

  /** The steps */

  predicate Verifies(files: seq<Inode>, trusted: set<Inode>) {
    files != [] && AllApexes(files) && forall i | 0 <= i < |files| :: files[i] in trusted
  }

  // verifyPackages with VerifyPackageBoot; trusted holds the files it accepts.
  method VerifyPackages(dev: Device, files: seq<Inode>, trusted: set<Inode>) returns (ok: bool)
    modifies dev`faults
    ensures old(dev.Valid()) ==> dev.Valid()
    ensures dev.faults >= old(dev.faults)
    ensures ok ==> Verifies(files, trusted) && dev.faults == old(dev.faults)
    ensures !ok ==> dev.faults > old(dev.faults) || !Verifies(files, trusted)
  {
    if files == [] {
      return false;
    }
    var i := 0;
    while i < |files|
      invariant 0 <= i <= |files| && dev.faults == old(dev.faults)
      invariant forall j | 0 <= j < i :: IsApex(files[j]) && files[j] in trusted
    {
      var m := OpenApex(dev, files[i]);
      if m.None? || files[i] !in trusted {
        return false;
      }
      i := i + 1;
    }
    ok := true;
  }

  lemma ToStageNext(active: Dir, versions: map<string, nat>, files: seq<Inode>, i: nat)
    requires i < |files|
    ensures ToStage(active, versions, files[..i + 1]) ==
            ToStage(active, versions, files[..i]) + (if NeedsStaging(active, versions, files[i]) then [files[i]] else [])
  {
    assert files[..i + 1][..i] == files[..i];
  }

  // What is staged for a request: all that needs it, and nothing outside the request.
  ghost predicate StagedFor(active: Dir, versions: map<string, nat>, files: seq<Inode>, staged: seq<Inode>) {
    (forall f | f in ToStage(active, versions, files) :: f in staged) && (forall f | f in staged :: f in files)
  }

  lemma AllApexesMore(files: seq<Inode>, i: nat, r: seq<Inode>)
    requires i < |files| && AllApexes(files) && AllApexes(r)
    ensures AllApexes(r + [files[i]])
  {
    hide IsApex;
  }

  lemma StagedForMore(active: Dir, versions: map<string, nat>, files: seq<Inode>, i: nat, r: seq<Inode>)
    requires i < |files| && StagedFor(active, versions, files[..i], r)
    ensures StagedFor(active, versions, files[..i + 1], r + [files[i]])
    ensures !NeedsStaging(active, versions, files[i]) ==> StagedFor(active, versions, files[..i + 1], r)
  {
    ToStageNext(active, versions, files, i);
    hide ToStage, NeedsStaging;
    assert files[..i + 1] == files[..i] + [files[i]];
  }

  // FilterUnnecessaryStagingPaths.  A file that fails to open is kept, for linking to fail on.
  method FilterFiles(dev: Device, files: seq<Inode>, versions: map<string, nat>) returns (r: seq<Inode>)
    requires Active in dev.disk.dirs && AllApexes(files)
    modifies dev`faults
    ensures old(dev.Valid()) ==> dev.Valid()
    ensures dev.faults >= old(dev.faults)
    ensures AllApexes(r)
    ensures StagedFor(dev.disk.dirs[Active], versions, files, r)
    ensures dev.faults == old(dev.faults) ==> r == ToStage(dev.disk.dirs[Active], versions, files)
  {
    r := [];
    var active := dev.disk.dirs[Active];
    var i := 0;
    while i < |files|
      invariant 0 <= i <= |files| && dev.faults >= old(dev.faults)
      invariant AllApexes(r) && StagedFor(active, versions, files[..i], r)
      invariant dev.faults == old(dev.faults) ==> r == ToStage(active, versions, files[..i])
    {
      hide ToStage, NeedsStaging, StagedFor, AllApexes;
      var m := OpenApex(dev, files[i]);
      ToStageNext(active, versions, files, i);
      StagedForMore(active, versions, files, i, r);
      if m.None? || NeedsStaging(active, versions, files[i]) {
        AllApexesMore(files, i, r);
        r := r + [files[i]];
      }
      i := i + 1;
    }
    assert files[..i] == files;
  }

  // One turn of the linking loop, after links for staged[..k].
  method LinkFile(dev: Device, staged: seq<Inode>, k: nat, ghost w: World, ghost active: Dir) returns (ok: bool)
    requires dev.Valid() && Active in w.disk.dirs && w.disk.dirs[Active] == active
    requires AllApexes(staged) && k < |staged| && Linkable(active, staged[..k])
    requires dev.world == WithActive(w, LinkAll(active, staged[..k]))
    modifies dev
    ensures dev.Valid() && dev.start == old(dev.start) && dev.stuck == old(dev.stuck)
    ensures dev.lost >= old(dev.lost) && dev.stuck >= old(dev.stuck)
    ensures dev.faults - dev.lost - dev.stuck >= old(dev.faults - dev.lost - dev.stuck)
    ensures ok ==> Linkable(active, staged[..k + 1]) && dev.faults == old(dev.faults)
                   && dev.world == WithActive(w, LinkAll(active, staged[..k + 1]))
                   && dev.log == old(dev.log) + [Link(Active, DestName(staged[k]), staged[k])]
    ensures !ok ==> dev.world == old(dev.world) && dev.log == old(dev.log) && dev.faults >= old(dev.faults)
                    && (dev.faults > old(dev.faults) || !Linkable(active, staged))
  {
    hide *;
    dev.Facts();
    LinkNext(w, staged, k);
    var f := staged[k];
    var m := OpenApex(dev, f);
    if m.None? || DestName(f) in dev.disk.dirs[Active] {
      return false;  // not an APEX, or EEXIST
    }
    ok := dev.Do(Link(Active, DestName(f), f));
  }

  // The linking loop.  done counts the links made.
  method LinkFiles(dev: Device, staged: seq<Inode>) returns (ok: bool, done: nat)
    requires dev.Valid() && Active in dev.disk.dirs && AllApexes(staged)
    modifies dev
    ensures dev.Valid() && dev.start == old(dev.start) && dev.faults >= old(dev.faults)
    ensures dev.lost >= old(dev.lost) && dev.stuck >= old(dev.stuck)
    ensures dev.faults - dev.lost - dev.stuck >= old(dev.faults - dev.lost - dev.stuck)
    ensures done <= |staged| && Linkable(old(dev.disk).dirs[Active], staged[..done]) && dev.stuck == old(dev.stuck)
    ensures dev.world == WithActive(old(dev.world), LinkAll(old(dev.disk).dirs[Active], staged[..done]))
    ensures dev.log == old(dev.log) + Links(staged[..done])
    ensures ok ==> done == |staged| && dev.faults == old(dev.faults)
    ensures !ok ==> dev.faults > old(dev.faults) || !Linkable(old(dev.disk).dirs[Active], staged)
  {
    ghost var w := dev.world;
    ghost var active := dev.disk.dirs[Active];
    done := 0;
    NoLinks(w);
    assert staged[..0] == [];
    hide *;
    while done < |staged|
      invariant done <= |staged| && Linkable(active, staged[..done])
      invariant dev.Valid() && dev.start == old(dev.start) && dev.faults == old(dev.faults)
      invariant dev.lost >= old(dev.lost) && dev.stuck >= old(dev.stuck)
      invariant dev.faults - dev.lost - dev.stuck >= old(dev.faults - dev.lost - dev.stuck)
      invariant dev.world == WithActive(w, LinkAll(active, staged[..done]))
      invariant dev.log == old(dev.log) + Links(staged[..done])
    {
      LinksNext(staged, done);
      LogsConcat(old(dev.log), Links(staged[..done]), [Link(Active, DestName(staged[done]), staged[done])]);
      ok := LinkFile(dev, staged, done, w, active);
      if !ok {
        return;
      }
      done := done + 1;
    }
    ok := true;
  }

  lemma LinksNext(staged: seq<Inode>, k: nat)
    requires k < |staged|
    ensures Links(staged[..k + 1]) == Links(staged[..k]) + [Link(Active, DestName(staged[k]), staged[k])]
  {
  }

  lemma NoLinks(w: World)
    requires Active in w.disk.dirs
    ensures var active := w.disk.dirs[Active];
      Linkable(active, []) && WithActive(w, LinkAll(active, [])) == w && Links([]) == []
  {
    assert w.disk.dirs[Active := w.disk.dirs[Active]] == w.disk.dirs;
  }

  lemma LinkNext(w: World, staged: seq<Inode>, k: nat)
    requires Active in w.disk.dirs && AllApexes(staged) && k < |staged|
    requires Linkable(w.disk.dirs[Active], staged[..k])
    ensures var active := w.disk.dirs[Active];
      var f := staged[k];
      var now := WithActive(w, LinkAll(active, staged[..k]));
      var link := Link(Active, DestName(f), f);
      && Active in now.disk.dirs && now.disk.dirs[Active] == LinkAll(active, staged[..k])
      && (DestName(f) !in LinkAll(active, staged[..k]) ==>
          Linkable(active, staged[..k + 1])
          && Permitted(now, link)
          && Apply(now, link) == WithActive(w, LinkAll(active, staged[..k + 1])))
      && (DestName(f) in LinkAll(active, staged[..k]) ==> !Linkable(active, staged))
  {
    var active := w.disk.dirs[Active];
    var f := staged[k];
    assert staged[..k + 1] == staged[..k] + [f];
    if DestName(f) !in LinkAll(active, staged[..k]) {
      OneMoreLink(w, active, staged[..k], f);
    } else {
      TakenName(active, staged, k);
    }
  }

  lemma TakenName(active: Dir, staged: seq<Inode>, k: nat)
    requires AllApexes(staged) && k < |staged|
    requires Linkable(active, staged[..k]) && DestName(staged[k]) in LinkAll(active, staged[..k])
    ensures !Linkable(active, staged)
  {
    LinkAllContents(active, staged[..k]);
    var f := staged[k];
    assert f in staged;
    if DestName(f) !in active {
      var g :| g in staged[..k] && DestName(g) == DestName(f);
      var i :| 0 <= i < k && staged[i] == g;
      assert DestName(staged[i]) == DestName(staged[k]);
    }
  }

  // One unlink in the active directory, as the next of a series that began in world w.
  method UnlinkActive(dev: Device, n: string, ghost w: World, ghost before: seq<Action>, ghost removed: seq<string>)
    returns (ok: bool, ghost removed': seq<string>)
    requires dev.Valid() && Permitted(dev.world, Unlink(Active, n))
    requires dev.log == before + Unlinks(Active, removed) && dev.world == Replay(w, Unlinks(Active, removed))
    modifies dev
    ensures dev.Valid() && dev.start == old(dev.start)
    ensures dev.lost >= old(dev.lost) && dev.stuck >= old(dev.stuck)
    ensures dev.faults - dev.lost - dev.stuck >= old(dev.faults - dev.lost - dev.stuck)
    ensures dev.log == before + Unlinks(Active, removed') && dev.world == Replay(w, Unlinks(Active, removed'))
    ensures ok ==> removed' == removed + [n] && dev.faults == old(dev.faults)
    ensures !ok ==> removed' == removed && dev.faults == old(dev.faults) + 1 && dev.stuck == old(dev.stuck) + 1
  {
    hide Inv, Follows, Replay, Permitted;
    removed' := removed;
    ok := dev.Do(Unlink(Active, n));
    if ok {
      removed' := removed + [n];
      assert Unlinks(Active, removed') == Unlinks(Active, removed) + [Unlink(Active, n)];
      ReplayOne(w, Unlinks(Active, removed), Unlink(Active, n));
    }
  }

  lemma NoUnlinks(w: World)
    ensures Unlinks(Active, []) == [] && Replay(w, Unlinks(Active, [])) == w
  {
    assert Unlinks(Active, []) == [];
  }

  // The scope guard: take back the links.  A failing unlink is only logged.
  method UndoLinks(dev: Device, staged: seq<Inode>) returns (ghost removed: seq<string>)
    requires dev.Valid() && Active in dev.disk.dirs && AllApexes(staged) && DistinctDests(staged)
    requires forall f | f in staged :: DestName(f) in dev.disk.dirs[Active]
    modifies dev
    ensures dev.Valid() && dev.start == old(dev.start) && dev.faults >= old(dev.faults)
    ensures dev.lost >= old(dev.lost) && dev.stuck >= old(dev.stuck)
    ensures dev.faults - dev.lost - dev.stuck >= old(dev.faults - dev.lost - dev.stuck)
    ensures dev.log == old(dev.log) + Unlinks(Active, removed) && dev.world == Replay(old(dev.world), Unlinks(Active, removed))
    ensures ToSet(removed) <= DestNames(staged)
    ensures dev.stuck == old(dev.stuck) ==> ToSet(removed) == DestNames(staged)
  {
    ghost var w, before := dev.world, dev.log;
    removed := [];
    NoUnlinks(w);
    hide Inv, Follows, Replay, Permitted, Apply, Unlinks, DistinctDests;
    var i := 0;
    while i < |staged|
      invariant 0 <= i <= |staged|
      invariant dev.Valid() && dev.start == old(dev.start) && dev.faults >= old(dev.faults)
      invariant dev.lost >= old(dev.lost) && dev.stuck >= old(dev.stuck)
      invariant dev.faults - dev.lost - dev.stuck >= old(dev.faults - dev.lost - dev.stuck)
      invariant dev.log == before + Unlinks(Active, removed) && dev.world == Replay(w, Unlinks(Active, removed))
      invariant ToSet(removed) <= DestNames(staged[..i])
      invariant dev.stuck == old(dev.stuck) ==> ToSet(removed) == DestNames(staged[..i])
    {
      UndoNext(w, staged, removed, i);
      var ok;
      ok, removed := UnlinkActive(dev, DestName(staged[i]), w, before, removed);
      i := i + 1;
    }
    assert staged[..i] == staged;
  }

  lemma UndoNext(w: World, staged: seq<Inode>, removed: seq<string>, i: nat)
    requires Active in w.disk.dirs && AllApexes(staged) && DistinctDests(staged) && i < |staged|
    requires forall f | f in staged :: DestName(f) in w.disk.dirs[Active]
    requires ToSet(removed) <= DestNames(staged[..i])
    ensures Permitted(Replay(w, Unlinks(Active, removed)), Unlink(Active, DestName(staged[i])))
    ensures DestNames(staged[..i + 1]) == DestNames(staged[..i]) + {DestName(staged[i])}
    ensures ToSet(removed + [DestName(staged[i])]) == ToSet(removed) + {DestName(staged[i])}
  {
    assert staged[i] in staged;
    assert staged[..i + 1] == staged[..i] + [staged[i]];
    assert DestName(staged[i]) !in DestNames(staged[..i]);
    assert DestName(staged[i]) !in ToSet(removed);
    UnlinksReplay(w, Active, removed);
    hide Inv, DistinctDests, Replay, Unlinks;
  }

  /** Linking with its guard */

  ghost predicate OnlyActiveDiffers(w: World, w': World) {
    w' == w || (Active in w'.disk.dirs && w' == WithActive(w, w'.disk.dirs[Active]))
  }

  // Between the directory and what the links made of it.
  ghost predicate UndoneFrom(active: Dir, linked: seq<Inode>, dir: Dir) {
    Linkable(active, linked) && Includes(dir, active) && Includes(LinkAll(active, linked), dir)
  }

  // The guard took back some of the first links only.
  ghost predicate UndoCutShort(active: Dir, staged: seq<Inode>, dir: Dir) {
    exists linked :: linked <= staged && UndoneFrom(active, linked, dir)
  }

  lemma LinkedThenUndone(w: World, staged: seq<Inode>, removed: seq<string>)
    requires Active in w.disk.dirs && Linkable(w.disk.dirs[Active], staged)
    requires ToSet(removed) <= DestNames(staged)
    ensures var active := w.disk.dirs[Active];
      var linked := WithActive(w, LinkAll(active, staged));
      var w' := Replay(linked, Unlinks(Active, removed));
      && OnlyActiveDiffers(w, w')
      && Follows(NoGap(PackagesIn(active)), linked, Unlinks(Active, removed))
      && (ToSet(removed) == DestNames(staged) ==> w' == w)
      && Active in w'.disk.dirs && UndoneFrom(active, staged, w'.disk.dirs[Active])
  {
    var active := w.disk.dirs[Active];
    var linked := WithActive(w, LinkAll(active, staged));
    LinkAllContents(active, staged);
    DestNamesOutside(active, staged);
    UnlinksReplay(linked, Active, removed);
    UnlinksLeaveNoGap(linked, active, removed, PackagesIn(active));
    hide Linkable, LinkAll, Replay, Follows, Unlinks;
    var rest := LinkAll(active, staged) - ToSet(removed);
    assert w.disk.dirs[Active := LinkAll(active, staged)][Active := rest] == w.disk.dirs[Active := rest];
    if ToSet(removed) == DestNames(staged) {
      assert rest == active;
      assert w.disk.dirs[Active := active] == w.disk.dirs;
    }
  }

  lemma DestNamesOutside(active: Dir, staged: seq<Inode>)
    requires Linkable(active, staged)
    ensures DestNames(staged) !! active.Keys
  {
  }

  // Links every file or, unless an unlink fails, none.
  method LinkOrUndo(dev: Device, staged: seq<Inode>) returns (ok: bool, ghost acts: seq<Action>)
    requires dev.Valid() && Active in dev.disk.dirs && AllApexes(staged)
    modifies dev
    ensures dev.Valid() && dev.start == old(dev.start) && dev.faults >= old(dev.faults)
    ensures dev.lost >= old(dev.lost) && dev.stuck >= old(dev.stuck)
    ensures dev.faults - dev.lost - dev.stuck >= old(dev.faults - dev.lost - dev.stuck)
    ensures dev.log == old(dev.log) + acts
    ensures Follows(NoGap(PackagesIn(old(dev.disk).dirs[Active])), old(dev.world), acts)
    ensures Replay(old(dev.world), acts) == dev.world && OnlyActiveDiffers(old(dev.world), dev.world)
    ensures ok ==> dev.faults == old(dev.faults) && Linkable(old(dev.disk).dirs[Active], staged)
                   && dev.world == WithActive(old(dev.world), LinkAll(old(dev.disk).dirs[Active], staged))
    ensures !ok && dev.stuck == old(dev.stuck) ==> dev.world == old(dev.world)
    ensures !ok ==> Active in dev.disk.dirs && UndoCutShort(old(dev.disk).dirs[Active], staged, dev.disk.dirs[Active])
    ensures !ok ==> dev.faults > old(dev.faults) || !Linkable(old(dev.disk).dirs[Active], staged)
  {
    ghost var w := dev.world;
    ghost var active := dev.disk.dirs[Active];
    var done;
    ok, done := LinkFiles(dev, staged);
    acts := Links(staged[..done]);
    LinksReplay(w, staged[..done]);
    LinkedDirHolds(w, active, staged[..done]);
    assert ok ==> staged[..done] == staged;
    hide Links;
    if !ok {
      ghost var removed;
      removed := UndoLinks(dev, staged[..done]);
      LinkedThenUndone(w, staged[..done], removed);
      hide Inv, Follows, Replay, Linkable, LinkAll, Links, Unlinks, OnlyActiveDiffers, WithActive, AllApexes, UndoneFrom;
      assert staged[..done] <= staged;
      ReplayConcat(w, acts, Unlinks(Active, removed));
      FollowsConcat(NoGap(PackagesIn(active)), w, acts, Unlinks(Active, removed));
      LogsConcat(old(dev.log), acts, Unlinks(Active, removed));
      acts := acts + Unlinks(Active, removed);
    }
  }

  lemma LogsConcat(a: seq<Action>, b: seq<Action>, c: seq<Action>)
    ensures a + b + c == a + (b + c)
  {
  }

  lemma LinkedDirHolds(w: World, active: Dir, files: seq<Inode>)
    requires Linkable(active, files)
    ensures var w' := WithActive(w, LinkAll(active, files));
      && OnlyActiveDiffers(w, w') && Active in w'.disk.dirs
      && (forall f | f in files :: DestName(f) in w'.disk.dirs[Active])
  {
    LinkAllContents(active, files);
  }

  /** Pruning */

  // The files that RemovePreviouslyActiveApexFiles deletes.
  function SupersededNames(dir: Dir, names: seq<string>, packages: set<string>, keep: set<string>): set<string> {
    set n | n in names && n in dir && Superseded(dir[n], n, packages, keep)
  }

  // The body of the loop of RemovePreviouslyActiveApexFiles.
  method PruneOne(dev: Device, dir: Dir, names: seq<string>, i: nat, packages: set<string>, keep: set<string>,
                  ghost w: World, ghost before: seq<Action>, ghost removed: seq<string>)
    returns (ok: bool, ghost removed': seq<string>)
    requires dev.Valid() && Active in w.disk.dirs && w.disk.dirs[Active] == dir
    requires Lists(names, dir) && Canonical(dir) && i < |names|
    requires dev.log == before + Unlinks(Active, removed) && dev.world == Replay(w, Unlinks(Active, removed))
    requires ToSet(removed) == SupersededNames(dir, names[..i], packages, keep)
    modifies dev
    ensures dev.Valid() && dev.start == old(dev.start)
    ensures dev.lost >= old(dev.lost) && dev.stuck >= old(dev.stuck)
    ensures dev.faults - dev.lost - dev.stuck >= old(dev.faults - dev.lost - dev.stuck)
    ensures dev.log == before + Unlinks(Active, removed') && dev.world == Replay(w, Unlinks(Active, removed'))
    ensures ok ==> ToSet(removed') == SupersededNames(dir, names[..i + 1], packages, keep) && dev.faults == old(dev.faults)
    ensures !ok ==> removed' == removed && dev.faults > old(dev.faults)
  {
    PruneNext(w, dir, names, removed, i, packages, keep);
    hide *;
    ok, removed' := true, removed;
    var m := OpenApex(dev, dir[names[i]]);
    if m.None? {
      return false, removed;
    }
    if m.value.name in packages && names[i] !in keep {
      ok, removed' := UnlinkActive(dev, names[i], w, before, removed);
    }
  }

  method RemovePreviouslyActiveApexFiles(dev: Device, packages: set<string>, keep: set<string>)
    returns (ok: bool, ghost removed: seq<string>)
    requires dev.Valid() && Active in dev.disk.dirs
    modifies dev
    ensures dev.Valid() && dev.start == old(dev.start) && dev.faults >= old(dev.faults)
    ensures dev.lost >= old(dev.lost) && dev.stuck >= old(dev.stuck)
    ensures dev.faults - dev.lost - dev.stuck >= old(dev.faults - dev.lost - dev.stuck)
    ensures dev.log == old(dev.log) + Unlinks(Active, removed) && dev.world == Replay(old(dev.world), Unlinks(Active, removed))
    ensures forall n | n in removed :: n !in Pruned(old(dev.disk).dirs[Active], packages, keep)
    ensures ok ==> dev.world == WithActive(old(dev.world), Pruned(old(dev.disk).dirs[Active], packages, keep))
                   && dev.faults == old(dev.faults)
    ensures !ok ==> dev.faults > old(dev.faults)
  {
    ghost var w, before := dev.world, dev.log;
    var dir := dev.disk.dirs[Active];
    dev.Facts();
    assert Canonical(Contents(w.disk, Active));
    CanonicalFilesAreApexFiles(dir);
    NoUnlinks(w);
    assert ToSet([]) == SupersededNames(dir, [], packages, keep) == {};
    removed := [];
    var names;
    ok, names := FindApexFilesByName(dev, Active);
    if !ok {
      return;
    }
    assert names[..0] == [];
    assert forall n | n in names :: n in dir && IsApex(dir[n]);
    hide *;
    var i := 0;
    while i < |names|
      invariant 0 <= i <= |names|
      invariant dev.Valid() && dev.start == old(dev.start) && dev.faults == old(dev.faults)
      invariant dev.lost >= old(dev.lost) && dev.stuck >= old(dev.stuck)
      invariant dev.faults - dev.lost - dev.stuck >= old(dev.faults - dev.lost - dev.stuck)
      invariant dev.log == before + Unlinks(Active, removed) && dev.world == Replay(w, Unlinks(Active, removed))
      invariant ToSet(removed) == SupersededNames(dir, names[..i], packages, keep)
    {
      ok, removed := PruneOne(dev, dir, names, i, packages, keep, w, before, removed);
      if !ok {
        RemovedAreSuperseded(w, dir, names, names[..i], removed, packages, keep);
        return;
      }
      i := i + 1;
    }
    assert names[..i] == names;
    RemovedAreSuperseded(w, dir, names, names, removed, packages, keep);
    ok := true;
  }

  lemma PruneNext(w: World, dir: Dir, names: seq<string>, removed: seq<string>, i: nat, packages: set<string>, keep: set<string>)
    requires Active in w.disk.dirs && w.disk.dirs[Active] == dir
    requires Lists(names, dir) && Canonical(dir) && i < |names|
    requires ToSet(removed) == SupersededNames(dir, names[..i], packages, keep)
    ensures names[i] in dir && IsApex(dir[names[i]]) && dir[names[i]].manifest.Some?
    ensures Permitted(Replay(w, Unlinks(Active, removed)), Unlink(Active, names[i]))
    ensures var name := dir[names[i]].manifest.value.name;
      if name in packages && names[i] !in keep
      then SupersededNames(dir, names[..i + 1], packages, keep) == ToSet(removed + [names[i]])
      else SupersededNames(dir, names[..i + 1], packages, keep) == ToSet(removed)
  {
    assert names[i] in names;
    SupersededNext(dir, names, removed, i, packages, keep);
    UnlinksReplay(w, Active, removed);
  }

  lemma SupersededNext(dir: Dir, names: seq<string>, removed: seq<string>, i: nat, packages: set<string>, keep: set<string>)
    requires i < |names| && names[i] in dir && names[i] !in names[..i]
    requires ToSet(removed) == SupersededNames(dir, names[..i], packages, keep)
    ensures names[i] !in ToSet(removed)
    ensures SupersededNames(dir, names[..i + 1], packages, keep)
            == if Superseded(dir[names[i]], names[i], packages, keep) then ToSet(removed + [names[i]]) else ToSet(removed)
  {
    assert names[..i + 1] == names[..i] + [names[i]];
    assert ToSet(removed + [names[i]]) == ToSet(removed) + {names[i]};
  }

  lemma RemovedAreSuperseded(w: World, dir: Dir, names: seq<string>, part: seq<string>, removed: seq<string>,
                             packages: set<string>, keep: set<string>)
    requires Active in w.disk.dirs && w.disk.dirs[Active] == dir && Lists(names, dir)
    requires ToSet(removed) == SupersededNames(dir, part, packages, keep)
    ensures forall n | n in removed :: n !in Pruned(dir, packages, keep)
    ensures part == names ==> Replay(w, Unlinks(Active, removed)) == WithActive(w, Pruned(dir, packages, keep))
  {
    assert forall n | n in removed :: n in ToSet(removed);
    UnlinksReplay(w, Active, removed);
    if part == names {
      assert dir - ToSet(removed) == Pruned(dir, packages, keep);
    }
  }

  /** Staging */

  lemma ActiveTwice(w: World, dir: Dir, removed: seq<string>)
    ensures forall r :: WithActive(WithActive(w, dir), r) == WithActive(w, r)
    ensures OnlyActiveDiffers(w, Replay(WithActive(w, dir), Unlinks(Active, removed)))
  {
    UnlinksReplay(WithActive(w, dir), Active, removed);
    forall r
      ensures WithActive(WithActive(w, dir), r) == WithActive(w, r)
    {
      assert w.disk.dirs[Active := dir][Active := r] == w.disk.dirs[Active := r];
    }
    assert Replay(WithActive(w, dir), Unlinks(Active, removed)) == WithActive(WithActive(w, dir), dir - ToSet(removed));
  }

  lemma PruneLeavesNoGap(w: World, staged: seq<Inode>, removed: seq<string>)
    requires Active in w.disk.dirs && Canonical(w.disk.dirs[Active]) && Linkable(w.disk.dirs[Active], staged)
    requires forall n | n in removed :: n !in StageResult(w.disk.dirs[Active], staged)
    ensures var active := w.disk.dirs[Active];
      Follows(NoGap(PackagesIn(active)), WithActive(w, LinkAll(active, staged)), Unlinks(Active, removed))
  {
    var active := w.disk.dirs[Active];
    var linked := WithActive(w, LinkAll(active, staged));
    var r := StageResult(active, staged);
    StageResultContents(active, staged);
    StageResultPackages(active, staged, r);
    assert Includes(linked.disk.dirs[Active], r);
    hide Follows, Linkable, Canonical, Replay, Unlinks, StagedOver, PackagesIn, StageResult, LinkAll, NoGap, Includes;
    UnlinksLeaveNoGap(linked, r, removed, PackagesIn(active));
  }

  // All links are in place and some superseded files are gone.
  ghost predicate PruneCutShort(active: Dir, staged: seq<Inode>, dir: Dir) {
    Linkable(active, staged) && Includes(LinkAll(active, staged), dir) && Includes(dir, StageResult(active, staged))
  }

  // What a failure leaves: the files as they were, or all the new ones with the prune unfinished, or,
  // only after an unlink failed, part of the new ones.
  ghost predicate FailedOutcome(active: Dir, staged: seq<Inode>, dir: Dir, stuck: bool) {
    dir == active || PruneCutShort(active, staged, dir) || (stuck && UndoCutShort(active, staged, dir))
  }

  lemma PruneCut(w: World, staged: seq<Inode>, removed: seq<string>)
    requires Active in w.disk.dirs && Linkable(w.disk.dirs[Active], staged)
    requires forall n | n in removed :: n !in StageResult(w.disk.dirs[Active], staged)
    ensures var active := w.disk.dirs[Active];
      var d := Replay(WithActive(w, LinkAll(active, staged)), Unlinks(Active, removed)).disk;
      Active in d.dirs && PruneCutShort(active, staged, d.dirs[Active])
  {
    var active := w.disk.dirs[Active];
    UnlinksReplay(WithActive(w, LinkAll(active, staged)), Active, removed);
    hide Linkable, LinkAll, Replay, Unlinks, PackagesOf, DestNames;
  }

  method LinkAndPrune(dev: Device, staged: seq<Inode>)
    returns (ok: bool, ghost acts: seq<Action>)
    requires dev.Valid() && Active in dev.disk.dirs && AllApexes(staged)
    modifies dev
    ensures dev.Valid() && dev.start == old(dev.start) && dev.faults >= old(dev.faults)
    ensures dev.lost >= old(dev.lost) && dev.stuck >= old(dev.stuck)
    ensures dev.faults - dev.lost - dev.stuck >= old(dev.faults - dev.lost - dev.stuck)
    ensures dev.log == old(dev.log) + acts
    ensures Follows(NoGap(PackagesIn(old(dev.disk).dirs[Active])), old(dev.world), acts)
    ensures OnlyActiveDiffers(old(dev.world), dev.world) && Replay(old(dev.world), acts) == dev.world
    ensures ok ==> dev.faults == old(dev.faults) && Linkable(old(dev.disk).dirs[Active], staged)
                   && dev.world == WithActive(old(dev.world), StageResult(old(dev.disk).dirs[Active], staged))
    ensures !ok ==> Active in dev.disk.dirs
                    && FailedOutcome(old(dev.disk).dirs[Active], staged, dev.disk.dirs[Active], dev.stuck > old(dev.stuck))
    ensures !ok ==> dev.faults > old(dev.faults) || !Linkable(old(dev.disk).dirs[Active], staged)
    ensures dev.faults == old(dev.faults) && !ok ==> dev.world == old(dev.world)
  {
    ghost var w := dev.world;
    ghost var active := dev.disk.dirs[Active];
    assert Canonical(Contents(w.disk, Active));
    ok, acts := LinkOrUndo(dev, staged);
    if ok {
      ghost var removed;
      dev.Facts();
      assert dev.disk.dirs[Active] == LinkAll(active, staged);
      StageResultIsPruned(active, staged);
      hide StageResult, Pruned, LinkAll, PackagesOf, DestNames, Inv, Follows, Replay, Linkable, Canonical, Unlinks, OnlyActiveDiffers, WithActive, PruneCutShort, UndoCutShort;
      ok, removed := RemovePreviouslyActiveApexFiles(dev, PackagesOf(staged), DestNames(staged));
      PruneLeavesNoGap(w, staged, removed);
      PruneCut(w, staged, removed);
      ActiveTwice(w, LinkAll(active, staged), removed);
      FollowsConcat(NoGap(PackagesIn(active)), w, acts, Unlinks(Active, removed));
      ReplayConcat(w, acts, Unlinks(Active, removed));
      LogsConcat(old(dev.log), acts, Unlinks(Active, removed));
      acts := acts + Unlinks(Active, removed);
    }
  }

  lemma StageResultIsPruned(active: Dir, staged: seq<Inode>)
    ensures StageResult(active, staged) == Pruned(LinkAll(active, staged), PackagesOf(staged), DestNames(staged))
  {
  }

  // When staging can succeed at all.
  ghost predicate Stageable(active: Dir, versions: map<string, nat>, files: seq<Inode>, trusted: set<Inode>) {
    Verifies(files, trusted) && Linkable(active, ToStage(active, versions, files))
  }

  lemma NothingStaged(active: Dir)
    ensures StageResult(active, []) == active && Linkable(active, [])
  {
    assert PackagesOf([]) == {};
  }

  lemma ActiveMade(w: World)
    requires Active !in w.disk.dirs
    ensures var made := Apply(w, MakeDir(Active));
      && Contents(made.disk, Active) == Contents(w.disk, Active) == map[] && Active in made.disk.dirs
      && OnlyActiveDiffers(w, made) && Follows(NoGap(PackagesIn(map[])), w, [MakeDir(Active)])
      && Replay(w, [MakeDir(Active)]) == made
      && (forall w' | OnlyActiveDiffers(made, w') :: OnlyActiveDiffers(w, w'))
  {
    ReplayOne(w, [], MakeDir(Active));
    assert [] + [MakeDir(Active)] == [MakeDir(Active)];
    assert [MakeDir(Active)][..0] == [];
    var made := Apply(w, MakeDir(Active));
    forall w' | OnlyActiveDiffers(made, w')
      ensures OnlyActiveDiffers(w, w')
    {
      if w' != made {
        assert w.disk.dirs[Active := map[]][Active := w'.disk.dirs[Active]] == w.disk.dirs[Active := w'.disk.dirs[Active]];
      }
    }
  }

  // What stagePackages makes of the active directory, whichever calls fail.
  ghost predicate Outcome(active: Dir, versions: map<string, nat>, files: seq<Inode>, dir: Dir, ok: bool, stuck: bool) {
    exists staged :: StagedFor(active, versions, files, staged) &&
      if ok then Linkable(active, staged) && dir == StageResult(active, staged) else FailedOutcome(active, staged, dir, stuck)
  }

  lemma OutcomeOf(active: Dir, versions: map<string, nat>, files: seq<Inode>, staged: seq<Inode>, dir: Dir, stuck: bool)
    requires StagedFor(active, versions, files, staged)
    ensures Linkable(active, staged) && dir == StageResult(active, staged) ==> Outcome(active, versions, files, dir, true, stuck)
    ensures FailedOutcome(active, staged, dir, stuck) ==> Outcome(active, versions, files, dir, false, stuck)
  {
  }

  lemma OutcomeUnchanged(active: Dir, versions: map<string, nat>, files: seq<Inode>)
    ensures forall stuck :: Outcome(active, versions, files, active, false, stuck)
  {
    assert StagedFor(active, versions, files, ToStage(active, versions, files));
  }

  /** stagePackages: no step leaves a gap; a failure leaves the files as they were, or with all new ones
      in place and the prune unfinished, unless an unlink fails while undoing; without faults it succeeds
      exactly on stageable requests, and then leaves StageResult. */
  method StagePackages(dev: Device, files: seq<Inode>, versions: map<string, nat>, trusted: set<Inode>)
    returns (ok: bool, ghost acts: seq<Action>)
    requires dev.Valid()
    modifies dev
    ensures dev.Valid() && dev.start == old(dev.start) && dev.faults >= old(dev.faults)
    ensures dev.lost >= old(dev.lost) && dev.stuck >= old(dev.stuck)
    ensures dev.faults - dev.lost - dev.stuck >= old(dev.faults - dev.lost - dev.stuck)
    ensures dev.log == old(dev.log) + acts
    ensures Follows(NoGap(PackagesIn(Contents(old(dev.disk), Active))), old(dev.world), acts)
    ensures OnlyActiveDiffers(old(dev.world), dev.world)
    ensures Outcome(Contents(old(dev.disk), Active), versions, files, Contents(dev.disk, Active), ok, dev.stuck > old(dev.stuck))
    ensures dev.faults == old(dev.faults) && !ok ==> Contents(dev.disk, Active) == Contents(old(dev.disk), Active)
    ensures ok ==> Active in dev.disk.dirs && Verifies(files, trusted)
    ensures dev.faults == old(dev.faults) ==>
              (ok <==> Stageable(Contents(old(dev.disk), Active), versions, files, trusted))
    ensures dev.faults == old(dev.faults) && ok ==>
              dev.disk.dirs[Active] == StageResult(Contents(old(dev.disk), Active), ToStage(Contents(old(dev.disk), Active), versions, files))
  {
    acts := [];
    ghost var w := dev.world;
    dev.Facts();
    NothingDone(w);
    OutcomeUnchanged(Contents(w.disk, Active), versions, files);
    hide *;
    ok := VerifyPackages(dev, files, trusted);
    if !ok {
      NotStageable(w, versions, files, trusted);
      return;
    }
    ghost var created;
    ok, created := MakeActive(dev);
    acts := created;
    if !ok {
      return;
    }
    ghost var made := dev.world;
    dev.Facts();
    VerifiedAreStageable(w, versions, files, trusted);
    ok, acts := StageVerified(dev, files, versions);
    dev.Facts();
    FollowsConcat(NoGap(PackagesIn(Contents(w.disk, Active))), w, created, acts);
    LogsConcat(old(dev.log), created, acts);
    DiffersTwice(w, made, dev.world);
    acts := created + acts;
  }

  // stagePackages' createDirIfNeeded: nothing happens, or an empty directory appears.
  method MakeActive(dev: Device) returns (ok: bool, ghost created: seq<Action>)
    requires dev.Valid()
    modifies dev
    ensures dev.Valid() && dev.start == old(dev.start) && dev.faults >= old(dev.faults)
    ensures dev.lost >= old(dev.lost) && dev.stuck >= old(dev.stuck)
    ensures dev.faults - dev.lost - dev.stuck >= old(dev.faults - dev.lost - dev.stuck)
    ensures dev.log == old(dev.log) + created && dev.world == Replay(old(dev.world), created)
    ensures Follows(NoGap(PackagesIn(Contents(old(dev.disk), Active))), old(dev.world), created)
    ensures OnlyActiveDiffers(old(dev.world), dev.world)
    ensures Contents(dev.disk, Active) == Contents(old(dev.disk), Active)
    ensures ok ==> Active in dev.disk.dirs && dev.disk.dirs[Active] == Contents(dev.disk, Active) && dev.faults == old(dev.faults)
    ensures !ok ==> dev.faults > old(dev.faults)
  {
    ghost var w := dev.world;
    dev.Facts();
    NothingDone(w);
    if Active !in dev.disk.dirs {
      ActiveMade(w);
    }
    hide Inv, Follows, Replay, OnlyActiveDiffers, PackagesIn, NoGap, WithActive;
    ok := CreateDirIfNeeded(dev, Active);
    dev.Facts();
    created := if dev.log == old(dev.log) then [] else [MakeDir(Active)];
  }

  lemma DiffersTwice(w: World, made: World, w': World)
    requires OnlyActiveDiffers(w, made) && OnlyActiveDiffers(made, w')
    ensures OnlyActiveDiffers(w, w')
  {
    if made != w && w' != made {
      ActiveTwice(w, made.disk.dirs[Active], []);
      assert WithActive(WithActive(w, made.disk.dirs[Active]), w'.disk.dirs[Active]) == WithActive(w, w'.disk.dirs[Active]);
    }
  }

  lemma NotStageable(w: World, versions: map<string, nat>, files: seq<Inode>, trusted: set<Inode>)
    ensures !Verifies(files, trusted) ==> !Stageable(Contents(w.disk, Active), versions, files, trusted)
  {
  }

  lemma VerifiedAreStageable(w: World, versions: map<string, nat>, files: seq<Inode>, trusted: set<Inode>)
    requires Verifies(files, trusted)
    ensures AllApexes(files)
    ensures var active := Contents(w.disk, Active);
      Stageable(active, versions, files, trusted) <==> Linkable(active, ToStage(active, versions, files))
  {
  }

  lemma NothingDone(w: World)
    ensures Follows(NoGap(PackagesIn(Contents(w.disk, Active))), w, []) && OnlyActiveDiffers(w, w) && Replay(w, []) == w
  {
  }

  // stagePackages once the files are verified and the directory is there.
  method StageVerified(dev: Device, files: seq<Inode>, versions: map<string, nat>)
    returns (ok: bool, ghost acts: seq<Action>)
    requires dev.Valid() && Active in dev.disk.dirs && AllApexes(files)
    modifies dev
    ensures dev.Valid() && dev.start == old(dev.start) && dev.faults >= old(dev.faults)
    ensures dev.lost >= old(dev.lost) && dev.stuck >= old(dev.stuck)
    ensures dev.faults - dev.lost - dev.stuck >= old(dev.faults - dev.lost - dev.stuck)
    ensures dev.log == old(dev.log) + acts
    ensures Follows(NoGap(PackagesIn(old(dev.disk).dirs[Active])), old(dev.world), acts)
    ensures OnlyActiveDiffers(old(dev.world), dev.world)
    ensures Outcome(old(dev.disk).dirs[Active], versions, files, Contents(dev.disk, Active), ok, dev.stuck > old(dev.stuck))
    ensures dev.faults == old(dev.faults) && !ok ==> dev.world == old(dev.world)
    ensures ok ==> Active in dev.disk.dirs
    ensures dev.faults == old(dev.faults) ==>
              (ok <==> Linkable(old(dev.disk).dirs[Active], ToStage(old(dev.disk).dirs[Active], versions, files)))
    ensures dev.faults == old(dev.faults) && ok ==>
              dev.disk.dirs[Active] == StageResult(old(dev.disk).dirs[Active], ToStage(old(dev.disk).dirs[Active], versions, files))
  {
    acts := [];
    NothingDone(dev.world);
    NothingStaged(dev.disk.dirs[Active]);
    dev.Facts();
    hide Inv, Follows, Replay, Linkable, StageResult, ToStage, PackagesIn, AllApexes, StagedFor, Outcome, FailedOutcome;
    ghost var active := dev.disk.dirs[Active];
    var staged := FilterFiles(dev, files, versions);
    if staged == [] {
      OutcomeOf(active, versions, files, staged, active, false);
      return true, [];
    }
    ok, acts := LinkAndPrune(dev, staged);
    dev.Facts();
    OutcomeOf(active, versions, files, staged, Contents(dev.disk, Active), dev.stuck > old(dev.stuck));
  }
}
