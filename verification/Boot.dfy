// What a boot does to the disk (apexd.cpp): stage the session that is ready, resume an
// interrupted rollback, and roll back and reboot when the packages cannot be activated.
module Boot {
  import opened Names
  import opened Lifecycle
  import opened DeviceModel
  import opened Sessions
  import opened Rollback
  import opened Submit
  import opened Staging
  import opened StagePackages

  /** Staging a session */

  ghost predicate Sources(d: Disk, ids: seq<int>, files: seq<Inode>) {
    |files| == |ids| && forall k | 0 <= k < |ids| :: SoleApex(d, ids[k], files[k])
  }

  // Every directory holds one APEX file, and together these files can be staged.
  ghost predicate Activates(d: Disk, ids: seq<int>, files: seq<Inode>, versions: map<string, nat>, trusted: set<Inode>) {
    Sources(d, ids, files) && Stageable(Contents(d, Active), versions, files, trusted)
  }

  ghost predicate CanActivate(d: Disk, ids: seq<int>, versions: map<string, nat>, trusted: set<Inode>) {
    exists files :: Activates(d, ids, files, versions, trusted)
  }

  method ScanDirs(dev: Device, ids: seq<int>) returns (ok: bool, files: seq<Inode>)
    modifies dev`faults
    ensures old(dev.Valid()) ==> dev.Valid()
    ensures dev.faults >= old(dev.faults)
    ensures ok ==> dev.faults == old(dev.faults) && Sources(dev.disk, ids, files)
                   && forall fs | Sources(dev.disk, ids, fs) :: fs == files
    ensures !ok ==> dev.faults > old(dev.faults) || forall fs :: !Sources(dev.disk, ids, fs)
  {
    hide SoleApex;
    files := [];
    var k := 0;
    while k < |ids|
      invariant 0 <= k <= |ids| && |files| == k && dev.faults == old(dev.faults)
      invariant forall j, i | 0 <= j < k :: SoleApex(dev.disk, ids[j], i) <==> i == files[j]
    {
      var r := FindSoleApex(dev, ids[k]);
      if r.None? {
        return false, files;
      }
      files := files + [r.value];
      k := k + 1;
    }
    ok := true;
  }

  // postinstallPackages: opens the files, then runs the hooks, whose outcome is an input.
  method PostinstallPackages(dev: Device, files: seq<Inode>, hookOk: bool) returns (ok: bool)
    modifies dev`faults
    ensures old(dev.Valid()) ==> dev.Valid()
    ensures dev.faults >= old(dev.faults)
    ensures ok ==> hookOk && files != [] && AllApexes(files) && dev.faults == old(dev.faults)
    ensures !ok ==> dev.faults > old(dev.faults) || !hookOk || files == [] || !AllApexes(files)
  {
    if files == [] {
      return false;
    }
    var i := 0;
    while i < |files|
      invariant 0 <= i <= |files| && dev.faults == old(dev.faults)
      invariant forall j | 0 <= j < i :: IsApex(files[j])
    {
      var m := OpenApex(dev, files[i]);
      if m.None? {
        return false;
      }
      i := i + 1;
    }
    ok := hookOk;
  }

  // The body of the loop in scanStagedSessionsDirAndStage, up to where its guard decides.
  method StageSession(dev: Device, ids: seq<int>, versions: map<string, nat>, trusted: set<Inode>, hookOk: bool)
    returns (ok: bool, ghost files: seq<Inode>)
    requires dev.Valid()
    modifies dev
    ensures dev.Valid() && dev.start == old(dev.start) && dev.faults >= old(dev.faults)
    ensures dev.lost >= old(dev.lost) && dev.stuck >= old(dev.stuck)
    ensures dev.faults - dev.lost - dev.stuck >= old(dev.faults - dev.lost - dev.stuck)
    ensures OnlyActiveDiffers(old(dev.world), dev.world)
    ensures FromSources(old(dev.disk), dev.disk, ids, versions, dev.stuck > old(dev.stuck))
    ensures dev.faults == old(dev.faults) && !ok ==> Contents(dev.disk, Active) == Contents(old(dev.disk), Active)
    ensures ok ==> Active in dev.disk.dirs && hookOk
                   && StagedSources(old(dev.disk), dev.disk, ids, files, versions, true, dev.stuck > old(dev.stuck))
    ensures dev.faults == old(dev.faults) ==> (ok <==> hookOk && CanActivate(old(dev.disk), ids, versions, trusted))
    ensures dev.faults == old(dev.faults) && ok ==> Activated(old(dev.disk), dev.disk, files, versions)
  {
    ghost var w := dev.world;
    dev.Facts();
    NothingDone(w);
    NothingFromSources(w.disk, ids, versions);
    hide *;
    var found;
    ok, found := ScanDirs(dev, ids);
    files := found;
    if !ok {
      return;
    }
    OneWayToActivate(w.disk, ids, files, versions, trusted);
    StageableAreApexes(Contents(w.disk, Active), versions, files, trusted);
    ok := PostinstallPackages(dev, found, hookOk);
    if !ok {
      return;
    }
    ghost var acts;
    ok, acts := StagePackages.StagePackages(dev, found, versions, trusted);
    dev.Facts();
    StagedFromSources(w.disk, dev.disk, ids, files, versions, ok, dev.stuck > old(dev.stuck));
  }

  // Nothing but the active directory differs.
  ghost predicate OtherDirsSame(d: Disk, e: Disk) {
    forall p | p != Active :: (p in e.dirs <==> p in d.dirs) && (p in d.dirs ==> e.dirs[p] == d.dirs[p])
  }

  // What staging the files of these directories may make of the active directory, whichever calls fail:
  // nothing, or one of the outcomes of stagePackages on exactly these files.
  ghost predicate FromSources(d: Disk, e: Disk, ids: seq<int>, versions: map<string, nat>, stuck: bool) {
    Contents(e, Active) == Contents(d, Active) || exists files, ok :: StagedSources(d, e, ids, files, versions, ok, stuck)
  }

  ghost predicate StagedSources(d: Disk, e: Disk, ids: seq<int>, files: seq<Inode>, versions: map<string, nat>, ok: bool, stuck: bool) {
    Sources(d, ids, files) && Outcome(Contents(d, Active), versions, files, Contents(e, Active), ok, stuck)
  }

  lemma NothingFromSources(d: Disk, ids: seq<int>, versions: map<string, nat>)
    ensures forall stuck :: FromSources(d, d, ids, versions, stuck)
  {
  }

  lemma StagedFromSources(d: Disk, e: Disk, ids: seq<int>, files: seq<Inode>, versions: map<string, nat>, ok: bool, stuck: bool)
    requires Sources(d, ids, files) && Outcome(Contents(d, Active), versions, files, Contents(e, Active), ok, stuck)
    ensures FromSources(d, e, ids, versions, stuck) && StagedSources(d, e, ids, files, versions, ok, stuck)
  {
    assert StagedSources(d, e, ids, files, versions, ok, stuck);
  }

  ghost predicate Activated(d: Disk, e: Disk, files: seq<Inode>, versions: map<string, nat>) {
    var active := Contents(d, Active);
    Contents(e, Active) == StageResult(active, ToStage(active, versions, files))
  }

  lemma OneWayToActivate(d: Disk, ids: seq<int>, files: seq<Inode>, versions: map<string, nat>, trusted: set<Inode>)
    requires Sources(d, ids, files) && forall fs | Sources(d, ids, fs) :: fs == files
    ensures CanActivate(d, ids, versions, trusted) <==> Stageable(Contents(d, Active), versions, files, trusted)
  {
    assert Stageable(Contents(d, Active), versions, files, trusted) ==> Activates(d, ids, files, versions, trusted);
  }

  lemma StageableAreApexes(active: Dir, versions: map<string, nat>, files: seq<Inode>, trusted: set<Inode>)
    ensures Stageable(active, versions, files, trusted) ==> files != [] && AllApexes(files)
  {
  }

  // One staged session: it ends ACTIVATED or ACTIVATION_FAILED unless a commit is lost.
  method ActivateStagedSession(dev: Device, session: ApexSession, versions: map<string, nat>, trusted: set<Inode>, hookOk: bool)
    returns (activated: bool, ghost files: seq<Inode>)
    requires dev.Valid() && session.OnDisk(dev.disk) && session.proto.state == STAGED
    modifies dev, session
    ensures dev.Valid() && dev.start == old(dev.start) && dev.faults >= old(dev.faults)
    ensures dev.lost >= old(dev.lost) && dev.stuck >= old(dev.stuck)
    ensures dev.faults - dev.lost - dev.stuck >= old(dev.faults - dev.lost - dev.stuck)
    ensures NothingNewLive(old(dev.disk), dev.disk)
    ensures FromSources(old(dev.disk), dev.disk, OwnSources(old(session.proto)), versions, dev.stuck > old(dev.stuck))
    ensures OtherDirsSame(old(dev.disk), dev.disk)
    ensures activated ==> hookOk && StagedSources(old(dev.disk), dev.disk, OwnSources(old(session.proto)), files, versions, true, dev.stuck > old(dev.stuck))
    ensures dev.faults == old(dev.faults) && !activated ==> Contents(dev.disk, Active) == Contents(old(dev.disk), Active)
    ensures dev.faults == old(dev.faults) ==>
              (activated <==> hookOk && CanActivate(old(dev.disk), OwnSources(old(session.proto)), versions, trusted))
    ensures dev.lost == old(dev.lost) ==> Marked(old(dev.disk), dev.disk, old(session.proto), activated)
    ensures dev.faults == old(dev.faults) && activated ==> Activated(old(dev.disk), dev.disk, files, versions)
  {
    ghost var w, s := dev.world, session.proto;
    dev.Facts();
    hide *;
    activated, files := StageSession(dev, OwnSources(session.proto), versions, trusted, hookOk);
    dev.Facts();
    StagedMayBeMarked(w, dev.world, s);
    ghost var staged := dev.world;
    var committed;
    if activated {
      committed := session.UpdateStateAndCommit(dev, ACTIVATED);
    } else {
      committed := session.UpdateStateAndCommit(dev, ACTIVATION_FAILED);
    }
    dev.Facts();
    SameActive(w.disk, staged.disk, dev.disk, files, versions);
  }

  function OwnSources(s: Session): seq<int> {
    SourceIds(s.id, s.children)
  }

  ghost predicate Marked(d: Disk, e: Disk, s: Session, activated: bool) {
    e.sessions == d.sessions[s.id := Some(s.(state := if activated then ACTIVATED else ACTIVATION_FAILED))]
  }

  lemma StagedMayBeMarked(w: World, w': World, s: Session)
    requires OnlyActiveDiffers(w, w') && Inv(w')
    requires s.id in w.disk.sessions && w.disk.sessions[s.id] == Some(s) && s.state == STAGED
    ensures s.id in w'.disk.sessions && w'.disk.sessions[s.id] == Some(s)
    ensures NothingNewLive(w.disk, w'.disk) && OtherDirsSame(w.disk, w'.disk)
    ensures forall t | t == ACTIVATION_FAILED || (t == ACTIVATED && Active in w'.disk.dirs) ::
              var c := Commit(s.(state := t));
              && Permitted(w', c)
              && NothingNewLive(w.disk, Apply(w', c).disk)
              && Marked(w.disk, Apply(w', c).disk, s, t == ACTIVATED)
              && Apply(w', c).disk.dirs == w'.disk.dirs
  {
  }

  lemma SameActive(d: Disk, staged: Disk, e: Disk, files: seq<Inode>, versions: map<string, nat>)
    requires e.dirs == staged.dirs
    ensures Activated(d, e, files, versions) <==> Activated(d, staged, files, versions)
    ensures Contents(e, Active) == Contents(staged, Active)
    ensures forall ids, stuck :: FromSources(d, staged, ids, versions, stuck) ==> FromSources(d, e, ids, versions, stuck)
    ensures forall ids, ok, stuck :: StagedSources(d, staged, ids, files, versions, ok, stuck) ==> StagedSources(d, e, ids, files, versions, ok, stuck)
    ensures OtherDirsSame(d, staged) ==> OtherDirsSame(d, e)
  {
    forall ids, stuck | FromSources(d, staged, ids, versions, stuck)
      ensures FromSources(d, e, ids, versions, stuck)
    {
      if fs, ok :| StagedSources(d, staged, ids, fs, versions, ok, stuck) {
        assert StagedSources(d, e, ids, fs, versions, ok, stuck);
      }
    }
  }

  // What the scan makes of a staged session when no call fails.
  ghost predicate Decided(d: Disk, e: Disk, s: Session, versions: map<string, nat>, trusted: set<Inode>, hookOk: bool) {
    && !InState(e, s.id, STAGED)
    && (InState(e, s.id, ACTIVATED) <==> hookOk && CanActivate(d, OwnSources(s), versions, trusted))
    && (if InState(e, s.id, ACTIVATED) then ActivatedFromSources(d, e, s, versions, trusted)
        else InState(e, s.id, ACTIVATION_FAILED) && Contents(e, Active) == Contents(d, Active))
  }

  ghost predicate ActivatedFromSources(d: Disk, e: Disk, s: Session, versions: map<string, nat>, trusted: set<Inode>) {
    exists files :: Activates(d, OwnSources(s), files, versions, trusted) && Activated(d, e, files, versions)
  }

  // What becomes of a staged session unless a commit is lost, whichever calls fail.
  ghost predicate Settled(d: Disk, e: Disk, s: Session, versions: map<string, nat>, hookOk: bool, stuck: bool) {
    && (forall id :: !InState(e, id, STAGED)) && (InState(e, s.id, ACTIVATED) || InState(e, s.id, ACTIVATION_FAILED))
    && (InState(e, s.id, ACTIVATED) ==> hookOk && exists files :: StagedSources(d, e, OwnSources(s), files, versions, true, stuck))
  }

  lemma MarkedIsSettled(d: Disk, e: Disk, s: Session, activated: bool, files: seq<Inode>, versions: map<string, nat>, hookOk: bool, stuck: bool)
    requires UniqueSession(d) && s.id in d.sessions && d.sessions[s.id] == Some(s) && Marked(d, e, s, activated)
    requires activated ==> hookOk && StagedSources(d, e, OwnSources(s), files, versions, true, stuck)
    ensures Settled(d, e, s, versions, hookOk, stuck)
  {
    assert Readable(d, s.id);
    assert forall id | Readable(e, id) :: id == s.id by {
      assert forall id | Readable(e, id) && id != s.id :: Readable(d, id);
    }
    hide StagedSources;
  }

  lemma MarkedIsDecided(d: Disk, e: Disk, s: Session, activated: bool, files: seq<Inode>,
                        versions: map<string, nat>, trusted: set<Inode>, hookOk: bool)
    requires UniqueSession(d) && s.id in d.sessions && d.sessions[s.id] == Some(s)
    requires Marked(d, e, s, activated) && (activated <==> hookOk && CanActivate(d, OwnSources(s), versions, trusted))
    requires activated ==> Sources(d, OwnSources(s), files) && Activated(d, e, files, versions)
    requires !activated ==> Contents(e, Active) == Contents(d, Active)
    ensures Decided(d, e, s, versions, trusted, hookOk) && forall id :: !InState(e, id, STAGED)
  {
    assert Readable(d, s.id);
    assert forall id | Readable(e, id) :: id == s.id by {
      assert forall id | Readable(e, id) && id != s.id :: Readable(d, id);
    }
    if activated {
      var fs :| Activates(d, OwnSources(s), fs, versions, trusted);
      SameSourcesOnce(d, OwnSources(s), files, fs);
    }
  }

  lemma SameSourcesOnce(d: Disk, ids: seq<int>, files: seq<Inode>, fs: seq<Inode>)
    requires Sources(d, ids, files) && Sources(d, ids, fs)
    ensures files == fs
  {
    forall k | 0 <= k < |ids|
      ensures files[k] == fs[k]
    {
      SoleApexOnce(d, ids[k], files[k], fs[k]);
    }
  }

  lemma SourcesStaged(d: Disk, e: Disk, s: Session, files: seq<Inode>, versions: map<string, nat>, stuck: bool)
    requires StagedSources(d, e, OwnSources(s), files, versions, true, stuck)
    ensures Sources(d, OwnSources(s), files)
  {
  }

  // The body of the loop of scanStagedSessionsDirAndStage.
  method DecideListed(dev: Device, s: Session, versions: map<string, nat>, trusted: set<Inode>, hookOk: bool)
    requires dev.Valid() && s.id in dev.disk.sessions && dev.disk.sessions[s.id] == Some(s) && s.state == STAGED
    modifies dev
    ensures dev.Valid() && dev.start == old(dev.start) && dev.faults >= old(dev.faults)
    ensures dev.lost >= old(dev.lost) && dev.stuck >= old(dev.stuck)
    ensures dev.faults - dev.lost - dev.stuck >= old(dev.faults - dev.lost - dev.stuck)
    ensures NothingNewLive(old(dev.disk), dev.disk)
    ensures FromSources(old(dev.disk), dev.disk, OwnSources(s), versions, dev.stuck > old(dev.stuck))
    ensures OtherDirsSame(old(dev.disk), dev.disk)
    ensures dev.lost == old(dev.lost) ==> Settled(old(dev.disk), dev.disk, s, versions, hookOk, dev.stuck > old(dev.stuck))
    ensures dev.faults == old(dev.faults) ==>
              Decided(old(dev.disk), dev.disk, s, versions, trusted, hookOk) && forall id :: !InState(dev.disk, id, STAGED)
  {
    ghost var d := dev.disk;
    dev.Facts();
    var session := new ApexSession(s);
    assert session.OnDisk(dev.disk);
    assert UniqueSession(d);
    hide *;
    var activated;
    ghost var files;
    activated, files := ActivateStagedSession(dev, session, versions, trusted, hookOk);
    if dev.lost == old(dev.lost) {
      MarkedIsSettled(d, dev.disk, s, activated, files, versions, hookOk, dev.stuck > old(dev.stuck));
    }
    if dev.faults == old(dev.faults) {
      if activated {
        SourcesStaged(d, dev.disk, s, files, versions, dev.stuck > old(dev.stuck));
      }
      MarkedIsDecided(d, dev.disk, s, activated, files, versions, trusted, hookOk);
    }
  }

  /** scanStagedSessionsDirAndStage */
  method ScanStagedSessionsDirAndStage(dev: Device, versions: map<string, nat>, trusted: set<Inode>, hookOk: bool)
    requires dev.Valid()
    modifies dev
    ensures dev.Valid() && dev.start == old(dev.start) && dev.faults >= old(dev.faults)
    ensures dev.lost >= old(dev.lost) && dev.stuck >= old(dev.stuck)
    ensures dev.faults - dev.lost - dev.stuck >= old(dev.faults - dev.lost - dev.stuck)
    ensures NothingNewLive(old(dev.disk), dev.disk)
    ensures OtherDirsSame(old(dev.disk), dev.disk)
    ensures dev.lost == old(dev.lost) ==> forall id :: !InState(dev.disk, id, STAGED)
    ensures forall id | InState(old(dev.disk), id, STAGED) && dev.lost == old(dev.lost) ::
              Settled(old(dev.disk), dev.disk, old(dev.disk).sessions[id].value, versions, hookOk, dev.stuck > old(dev.stuck))
    ensures forall id | InState(old(dev.disk), id, STAGED) && dev.faults == old(dev.faults) ::
              Decided(old(dev.disk), dev.disk, old(dev.disk).sessions[id].value, versions, trusted, hookOk)
    ensures forall id | InState(old(dev.disk), id, STAGED) && dev.faults == old(dev.faults) && InState(dev.disk, id, ACTIVATED) ::
              EachSourceServed(old(dev.disk), dev.disk, old(dev.disk).sessions[id].value, versions)
    ensures forall id | InState(old(dev.disk), id, STAGED) ::
              FromSources(old(dev.disk), dev.disk, OwnSources(old(dev.disk).sessions[id].value), versions, dev.stuck > old(dev.stuck))
    ensures (forall id :: !InState(old(dev.disk), id, STAGED)) ==> dev.world == old(dev.world)
  {
    var d := dev.disk;
    dev.Facts();
    var staged := GetSessionsInState(dev, STAGED);
    assert forall s | s in staged :: InState(d, s.id, STAGED) && d.sessions[s.id] == Some(s) && s.state == STAGED;
    assert staged != [] ==> staged[0] in staged;
    assert staged == [] ==> forall id :: !InState(d, id, STAGED);
    NothingChanged(d);
    assert Canonical(Contents(d, Active)) && OtherDirsSame(d, d);
    hide *;
    var i := 0;
    while i < |staged|
      invariant 0 <= i <= |staged| <= 1
      invariant dev.Valid() && dev.start == old(dev.start) && dev.faults >= old(dev.faults)
      invariant dev.lost >= old(dev.lost) && dev.stuck >= old(dev.stuck)
      invariant dev.faults - dev.lost - dev.stuck >= old(dev.faults - dev.lost - dev.stuck)
      invariant NothingNewLive(d, dev.disk)
      invariant i == 0 ==> dev.world == old(dev.world) && dev.disk == d && dev.faults == old(dev.faults)
      invariant i > 0 && dev.faults == old(dev.faults) ==> Decided(d, dev.disk, staged[0], versions, trusted, hookOk)
      invariant i > 0 && dev.lost == old(dev.lost) ==> Settled(d, dev.disk, staged[0], versions, hookOk, dev.stuck > old(dev.stuck))
      invariant i > 0 && dev.lost == old(dev.lost) ==> forall id :: !InState(dev.disk, id, STAGED)
      invariant i > 0 && dev.faults == old(dev.faults) && InState(dev.disk, staged[0].id, ACTIVATED) ==> EachSourceServed(d, dev.disk, staged[0], versions)
      invariant OtherDirsSame(d, dev.disk)
      invariant i > 0 ==> FromSources(d, dev.disk, OwnSources(staged[0]), versions, dev.stuck > old(dev.stuck))
    {
      DecideListed(dev, staged[i], versions, trusted, hookOk);
      if dev.lost == old(dev.lost) {
        SettledMeansNoneStaged(d, dev.disk, staged[0], versions, hookOk, dev.stuck > old(dev.stuck));
      }
      if dev.faults == old(dev.faults) {
        DecidedServes(d, dev.disk, staged[0], versions, trusted, hookOk);
      }
      i := i + 1;
    }
  }

  /** Theorem: an activated session with distinct packages has each of them in place or active before. */
  lemma ActivatedServesAll(d: Disk, e: Disk, s: Session, versions: map<string, nat>, trusted: set<Inode>)
    requires Canonical(Contents(d, Active)) && ActivatedFromSources(d, e, s, versions, trusted)
    ensures exists files :: Sources(d, OwnSources(s), files) && AllApexes(files) &&
              (DistinctPackages(files) ==> forall f | f in files :: Served(Contents(e, Active), versions, f))
  {
    var files :| Activates(d, OwnSources(s), files, versions, trusted) && Activated(d, e, files, versions);
    StageableAreApexes(Contents(d, Active), versions, files, trusted);
    if DistinctPackages(files) {
      DistinctPackagesAllServed(Contents(d, Active), versions, files);
    }
  }

  lemma SettledMeansNoneStaged(d: Disk, e: Disk, s: Session, versions: map<string, nat>, hookOk: bool, stuck: bool)
    requires Settled(d, e, s, versions, hookOk, stuck)
    ensures forall id :: !InState(e, id, STAGED)
  {
  }

  // Every child's directory holds one APEX file, or that of the session itself if it has no children; and unless two of
  // these files are of the same package, each is in the active directory or its version was active.
  ghost predicate EachSourceServed(d: Disk, e: Disk, s: Session, versions: map<string, nat>) {
    if s.children == [] then exists f :: SoleApex(d, s.id, f) && IsApex(f) && Served(Contents(e, Active), versions, f)
    else
      && (forall k | 0 <= k < |s.children| :: exists f :: SoleApex(d, s.children[k], f) && IsApex(f))
      && (DistinctChildren(d, s.children) ==>
          forall k, f | 0 <= k < |s.children| && SoleApex(d, s.children[k], f) :: Served(Contents(e, Active), versions, f))
  }

  // No two of these directories hold files of one package.
  ghost predicate DistinctChildren(d: Disk, children: seq<int>) {
    forall i, j, f, g | 0 <= i < j < |children| && SoleApex(d, children[i], f) && SoleApex(d, children[j], g) && IsApex(f) && IsApex(g) ::
      f.manifest.value.name != g.manifest.value.name
  }

  lemma DecidedServes(d: Disk, e: Disk, s: Session, versions: map<string, nat>, trusted: set<Inode>, hookOk: bool)
    requires Canonical(Contents(d, Active)) && Decided(d, e, s, versions, trusted, hookOk)
    ensures InState(e, s.id, ACTIVATED) ==> EachSourceServed(d, e, s, versions)
  {
    if InState(e, s.id, ACTIVATED) {
      ActivatedServesAll(d, e, s, versions, trusted);
      var files :| Sources(d, OwnSources(s), files) && AllApexes(files) &&
        (DistinctPackages(files) ==> forall f | f in files :: Served(Contents(e, Active), versions, f));
      SourcesServed(d, e, s, files, versions);
    }
  }

  lemma SourcesServed(d: Disk, e: Disk, s: Session, files: seq<Inode>, versions: map<string, nat>)
    requires Sources(d, OwnSources(s), files) && AllApexes(files)
    requires DistinctPackages(files) ==> forall f | f in files :: Served(Contents(e, Active), versions, f)
    ensures EachSourceServed(d, e, s, versions)
  {
    hide SoleApex, Served, IsApex;
    if s.children == [] {
      assert |files| == 1 && OwnSources(s)[0] == s.id && files[0] in files;
      assert DistinctPackages(files);
    } else {
      assert OwnSources(s) == s.children;
      forall k | 0 <= k < |s.children|
        ensures SoleApex(d, s.children[k], files[k]) && IsApex(files[k]) && files[k] in files
        ensures forall f | SoleApex(d, s.children[k], f) :: f == files[k]
      {
        forall f | SoleApex(d, s.children[k], f)
          ensures f == files[k]
        {
          SoleApexOnce(d, s.children[k], f, files[k]);
        }
      }
      if DistinctChildren(d, s.children) {
        ChildrenDiffer(d, s.children, files);
      }
    }
  }

  lemma ChildrenDiffer(d: Disk, children: seq<int>, files: seq<Inode>)
    requires Sources(d, children, files) && AllApexes(files) && DistinctChildren(d, children)
    ensures DistinctPackages(files)
  {
    forall i, j | 0 <= i < j < |files|
      ensures PackageOf(files[i]) != PackageOf(files[j])
    {
      assert SoleApex(d, children[i], files[i]) && SoleApex(d, children[j], files[j]);
    }
  }

  lemma SoleApexOnce(d: Disk, id: int, f: Inode, g: Inode)
    requires SoleApex(d, id, f) && SoleApex(d, id, g)
    ensures f == g
  {
    var n :| ApexFiles(d.dirs[Staging(id)]) == map[n := f];
    var m :| ApexFiles(d.dirs[Staging(id)]) == map[m := g];
    assert n in map[m := g];
  }

  /** No boot loop */

  /** onStart, the disk's part.  keysOk and activationOk tell whether collectApexKeys and
      scanPackagesDirAndActivate of the active directory succeed. */
  method OnStart(dev: Device, versions: map<string, nat>, trusted: set<Inode>, hookOk: bool, keysOk: bool, activationOk: bool)
    returns (reboot: bool)
    requires dev.Valid()
    modifies dev
    ensures dev.Valid() && dev.start == old(dev.start) && dev.faults >= old(dev.faults)
    ensures dev.lost >= old(dev.lost) && dev.stuck >= old(dev.stuck)
    ensures dev.faults - dev.lost - dev.stuck >= old(dev.faults - dev.lost - dev.stuck)
    ensures NothingNewLive(old(dev.disk), dev.disk)
    ensures !keysOk ==> !reboot && dev.world == old(dev.world)
    ensures reboot ==> !activationOk && !NoLive(old(dev.disk))
    ensures reboot && dev.lost == old(dev.lost) ==> NoLive(dev.disk)
    ensures forall id | reboot && dev.lost == old(dev.lost) && Live(old(dev.disk), id) ::
              RestoredTo(dev.disk, id, Contents(old(dev.disk), Backup))
    ensures keysOk && dev.lost == old(dev.lost) ==> forall id :: !InState(dev.disk, id, STAGED) && !RollingBack(dev.disk, id)
    ensures forall id | keysOk && dev.faults == old(dev.faults) && RollingBack(old(dev.disk), id) ::
              !reboot && dev.world == Resumed(old(dev.world), id)
    ensures forall id | keysOk && dev.faults == old(dev.faults) && InState(old(dev.disk), id, ACTIVATED) ::
              reboot == !activationOk && dev.world == if reboot then RolledBack(old(dev.world), id) else old(dev.world)
    ensures forall id | keysOk && dev.faults == old(dev.faults) && InState(old(dev.disk), id, VERIFIED) ::
              !reboot && dev.world == old(dev.world)
    ensures keysOk && dev.faults == old(dev.faults) && NoLive(old(dev.disk)) ==> !reboot && dev.world == old(dev.world)
    ensures forall id | keysOk && dev.faults == old(dev.faults) && InState(old(dev.disk), id, STAGED) ::
              BootedStaged(old(dev.disk), dev.disk, id, versions, trusted, hookOk, activationOk, reboot)
  {
    hide *;
    ghost var w := dev.world;
    dev.Facts();
    InvIsUnique(w);
    reboot := false;
    NothingChanged(w.disk);
    OneState(w.disk);
    WaitingIsLive(w.disk);
    if !keysOk {
      return;
    }
    ScanStagedSessionsDirAndStage(dev, versions, trusted, hookOk);
    ghost var scanned := dev.world;
    dev.Facts();
    InvIsUnique(scanned);
    OneState(scanned.disk);
    DecidedMeans(w.disk, scanned.disk, versions, trusted, hookOk);
    if dev.lost == old(dev.lost) {
      SettledStates(w, scanned, versions, hookOk, dev.stuck > old(dev.stuck));
    }
    var resumed;
    ghost var acts;
    resumed, acts := ResumeRollbackIfNeeded(dev);
    dev.Facts();
    ghost var settled := dev.disk;
    InvIsUnique(dev.world);
    ResumedMeansNoneLive(w);
    LiveFromBefore(w.disk, scanned.disk, settled);
    NoneWaiting(settled);
    NothingRolling(scanned.disk);
    if !activationOk {
      var ok;
      ok, reboot := RollbackActiveSessionAndReboot(dev);
      dev.Facts();
      LiveFromBefore(w.disk, settled, dev.disk);
      NoneWaiting(dev.disk);
      LiveIsWaiting(settled);
      if reboot && dev.lost == old(dev.lost) {
        RebootRestores(w, scanned, dev.world);
      }
    }
    StagedIsBooted(w.disk, dev.disk, versions, trusted, hookOk, activationOk, reboot);
  }

  lemma NoneWaiting(d: Disk)
    ensures NoLive(d) ==> forall id :: !InState(d, id, STAGED) && !RollingBack(d, id)
    ensures NoneRollingBack(d) <==> forall id :: !RollingBack(d, id)
  {
    assert forall id | InState(d, id, STAGED) || RollingBack(d, id) :: Live(d, id);
  }

  lemma LiveIsWaiting(d: Disk)
    ensures NoneRollingBack(d) && !NoLive(d) && UniqueSession(d) ==>
              exists id :: InState(d, id, VERIFIED) || InState(d, id, STAGED) || InState(d, id, ACTIVATED)
  {
    if NoneRollingBack(d) && !NoLive(d) && UniqueSession(d) {
      var id :| Live(d, id);
      assert !RollingBack(d, id);
      assert InState(d, id, d.sessions[id].value.state);
    }
  }

  lemma NothingRolling(d: Disk)
    ensures NoneRollingBack(d) <==> forall id :: !RollingBack(d, id)
  {
  }

  // After the scan of the staged sessions, if no commit was lost.
  lemma SettledStates(w: World, m: World, versions: map<string, nat>, hookOk: bool, stuck: bool)
    requires Inv(w) && Inv(m)
    requires forall id | InState(w.disk, id, STAGED) :: Settled(w.disk, m.disk, w.disk.sessions[id].value, versions, hookOk, stuck)
    ensures forall id | InState(w.disk, id, STAGED) :: InState(m.disk, id, ACTIVATED) || InState(m.disk, id, ACTIVATION_FAILED)
  {
    hide StagedSources, BackupServes, Canonical;
  }

  // A rollback of what the scan left restores the backup of the time before the boot.
  lemma RebootRestores(w: World, m: World, e: World)
    requires Inv(w) && Inv(m) && OtherDirsSame(w.disk, m.disk)
    requires (forall id :: !InState(w.disk, id, STAGED)) ==> m == w
    requires forall id | InState(w.disk, id, STAGED) :: InState(m.disk, id, ACTIVATED) || InState(m.disk, id, ACTIVATION_FAILED)
    requires NoneRollingBack(m.disk) && !NoLive(m.disk) && forall id :: !InState(m.disk, id, VERIFIED) && !InState(m.disk, id, STAGED)
    requires forall id | InState(m.disk, id, ACTIVATED) :: e == RolledBack(m, id)
    ensures forall id | Live(w.disk, id) :: RestoredTo(e.disk, id, Contents(w.disk, Backup))
  {
    var i :| Live(m.disk, i);
    assert InState(m.disk, i, ACTIVATED) by {
      assert !RollingBack(m.disk, i) && !InState(m.disk, i, VERIFIED) && !InState(m.disk, i, STAGED);
    }
    assert BackupServes(m, ACTIVATED);
    RolledBackRestores(m, i);
    forall id | Live(w.disk, id)
      ensures id == i
    {
      if InState(w.disk, id, STAGED) {
        assert Readable(m.disk, id);
      } else {
        assert forall j | InState(w.disk, j, STAGED) :: j == id;
        assert m == w;
      }
    }
    hide Inv, RolledBack;
  }

  lemma RolledBackRestores(w: World, id: int)
    requires Inv(w) && InState(w.disk, id, ACTIVATED)
    ensures Backup in w.disk.dirs && RestoredTo(RolledBack(w, id).disk, id, w.disk.dirs[Backup])
  {
    assert Readable(w.disk, id) && BackupServes(w, ACTIVATED);
  }

  // A boot with a staged session and no failing call.
  ghost predicate BootedStaged(d: Disk, e: Disk, id: int, versions: map<string, nat>, trusted: set<Inode>,
                               hookOk: bool, activationOk: bool, reboot: bool) {
    && InState(d, id, STAGED)
    && var s := d.sessions[id].value;
       && (reboot <==> !activationOk && hookOk && CanActivate(d, OwnSources(s), versions, trusted))
       && (if reboot then RestoredTo(e, id, Contents(d, Backup)) else Decided(d, e, s, versions, trusted, hookOk))
  }

  lemma StagedIsBooted(d: Disk, e: Disk, versions: map<string, nat>, trusted: set<Inode>, hookOk: bool, activationOk: bool, reboot: bool)
    ensures forall id | InState(d, id, STAGED)
              && (reboot <==> !activationOk && hookOk && CanActivate(d, OwnSources(d.sessions[id].value), versions, trusted))
              && (if reboot then RestoredTo(e, id, Contents(d, Backup)) else Decided(d, e, d.sessions[id].value, versions, trusted, hookOk)) ::
              BootedStaged(d, e, id, versions, trusted, hookOk, activationOk, reboot)
  {
  }

  // With one session, its state excludes the others.
  lemma OneState(d: Disk)
    requires UniqueSession(d)
    ensures forall i, j, s, t | InState(d, i, s) && InState(d, j, t) :: i == j && s == t
    ensures forall i, s | InState(d, i, s) && IsFinalized(s) :: NoLive(d)
    ensures forall i | RollingBack(d, i) :: InState(d, i, ROLLBACK_IN_PROGRESS)
    ensures NoLive(d) ==> forall i :: !InState(d, i, STAGED) && !RollingBack(d, i)
  {
    assert forall i | InState(d, i, STAGED) || RollingBack(d, i) :: Live(d, i);
  }

  lemma InvIsUnique(w: World)
    requires Inv(w)
    ensures UniqueSession(w.disk)
  {
  }

  // What deciding a staged session means for the calls that follow.
  lemma DecidedMeans(d: Disk, e: Disk, versions: map<string, nat>, trusted: set<Inode>, hookOk: bool)
    requires UniqueSession(e)
    ensures forall id | InState(d, id, STAGED) && Decided(d, e, d.sessions[id].value, versions, trusted, hookOk) ::
              var s := d.sessions[id].value;
              if hookOk && CanActivate(d, OwnSources(s), versions, trusted) then InState(e, s.id, ACTIVATED) else NoLive(e)
  {
    OneState(e);
    hide CanActivate, ActivatedFromSources;
  }

  lemma ResumedMeansNoneLive(w: World)
    requires Inv(w)
    ensures forall id | RollingBack(w.disk, id) :: NoLive(Resumed(w, id).disk)
  {
    forall id | RollingBack(w.disk, id)
      ensures NoLive(Resumed(w, id).disk)
    {
      OnlyFinalizedLeft(w.disk, Resumed(w, id).disk, w.disk.sessions[id].value.(state := ROLLED_BACK));
    }
  }

  lemma LiveFromBefore(d: Disk, m: Disk, e: Disk)
    requires NothingNewLive(d, m) && NothingNewLive(m, e)
    ensures NothingNewLive(d, e)
    ensures NoLive(d) ==> NoLive(m) && NoLive(e)
  {
  }

  // What may happen to the sessions between two submissions.
  datatype Event =
    | Started(versions: map<string, nat>, trusted: set<Inode>, hookOk: bool, keysOk: bool, activationOk: bool)
    | MarkReady(id: int)
    | MarkSuccessful(id: int)
    | Abort

  // What an event does when no call fails.
  ghost predicate Happened(e: Event, d: Disk, d': Disk, reboot: bool) {
    match e
    case Started(versions, trusted, hookOk, keysOk, activationOk) =>
      if !keysOk || NoLive(d) then !reboot && d' == d
      else Booted(d, d', versions, trusted, hookOk, activationOk, reboot)
    case MarkReady(id) => !reboot && if InState(d, id, VERIFIED) then InState(d', id, STAGED) else d' == d
    case MarkSuccessful(id) => !reboot && if InState(d, id, ACTIVATED) then InState(d', id, SUCCESS) else d' == d
    case Abort =>
      && !reboot && (NoLive(d) ==> d' == d)
      && forall id | InState(d, id, VERIFIED) || InState(d, id, STAGED) :: id !in d'.sessions && d'.dirs == d.dirs
  }

  ghost predicate Booted(d: Disk, d': Disk, versions: map<string, nat>, trusted: set<Inode>, hookOk: bool, activationOk: bool, reboot: bool) {
    && (forall id | InState(d, id, STAGED) :: BootedStaged(d, d', id, versions, trusted, hookOk, activationOk, reboot))
    && (forall id | InState(d, id, ACTIVATED) ::
          reboot == !activationOk && if reboot then RestoredTo(d', id, Contents(d, Backup)) else d' == d)
    && (forall id | InState(d, id, VERIFIED) :: !reboot && d' == d)
    && (forall id | RollingBack(d, id) :: !reboot && NoLive(d'))
  }

  lemma StartHappened(w: World, w': World, versions: map<string, nat>, trusted: set<Inode>, hookOk: bool, keysOk: bool, activationOk: bool, reboot: bool)
    requires Inv(w) && (!keysOk || NoLive(w.disk) ==> !reboot && w' == w)
    requires keysOk ==> forall id | RollingBack(w.disk, id) :: !reboot && w' == Resumed(w, id)
    requires keysOk ==> forall id | InState(w.disk, id, ACTIVATED) :: reboot == !activationOk && w' == if reboot then RolledBack(w, id) else w
    requires keysOk ==> forall id | InState(w.disk, id, VERIFIED) :: !reboot && w' == w
    requires keysOk ==> forall id | InState(w.disk, id, STAGED) :: BootedStaged(w.disk, w'.disk, id, versions, trusted, hookOk, activationOk, reboot)
    ensures Happened(Started(versions, trusted, hookOk, keysOk, activationOk), w.disk, w'.disk, reboot)
  {
    ResumedMeansNoneLive(w);
    forall id | InState(w.disk, id, ACTIVATED)
      ensures Contents(w.disk, Backup) == w.disk.dirs[Backup] && RestoredTo(RolledBack(w, id).disk, id, w.disk.dirs[Backup])
    {
      RolledBackRestores(w, id);
    }
    hide Inv, RolledBack, Resumed, BootedStaged, NoLive, RollingBack, RestoredTo, InState, Contents;
  }

  lemma OtherHappened(e: Event, d: Disk, d': Disk)
    requires !e.Started?
    requires e.MarkReady? ==> if InState(d, e.id, VERIFIED) then InState(d', e.id, STAGED) else d' == d
    requires e.MarkSuccessful? ==> if InState(d, e.id, ACTIVATED) then InState(d', e.id, SUCCESS) else d' == d
    requires e.Abort? ==> (NoLive(d) ==> d' == d)
    requires e.Abort? ==> forall id | InState(d, id, VERIFIED) || InState(d, id, STAGED) :: id !in d'.sessions && d'.dirs == d.dirs
    ensures Happened(e, d, d', false)
  {
    hide InState, NoLive;
  }

  function Count(asked: seq<bool>): nat {
    if asked == [] then 0 else Count(asked[..|asked| - 1]) + if asked[|asked| - 1] then 1 else 0
  }

  // The disks around the events of a run, and how many calls had failed by then.
  ghost predicate Traced(events: seq<Event>, disks: seq<Disk>, faults: seq<nat>, asked: seq<bool>) {
    && |disks| == |faults| == |asked| + 1 && |asked| <= |events|
    && forall i | 0 <= i < |asked| && faults[i + 1] == faults[i] :: Happened(events[i], disks[i], disks[i + 1], asked[i])
  }

  lemma TracedNext(events: seq<Event>, disks: seq<Disk>, faults: seq<nat>, asked: seq<bool>, d: Disk, n: nat, reboot: bool)
    requires Traced(events, disks, faults, asked) && |asked| < |events|
    requires n == faults[|asked|] ==> Happened(events[|asked|], disks[|asked|], d, reboot)
    ensures Traced(events, disks + [d], faults + [n], asked + [reboot])
    ensures Count(asked + [reboot]) == Count(asked) + if reboot then 1 else 0
  {
    hide Happened;
    assert (asked + [reboot])[..|asked|] == asked;
    forall i | 0 <= i < |asked| + 1 && (faults + [n])[i + 1] == (faults + [n])[i]
      ensures Happened(events[i], (disks + [d])[i], (disks + [d])[i + 1], (asked + [reboot])[i])
    {
      assert i < |asked| ==> (asked + [reboot])[i] == asked[i];
    }
  }

  method Handle(dev: Device, e: Event) returns (reboot: bool)
    requires dev.Valid()
    modifies dev
    ensures dev.Valid() && NothingNewLive(old(dev.disk), dev.disk)
    ensures dev.lost >= old(dev.lost) && dev.stuck >= old(dev.stuck)
    ensures dev.faults - dev.lost - dev.stuck >= old(dev.faults - dev.lost - dev.stuck)
    ensures dev.faults >= old(dev.faults) && (dev.faults == old(dev.faults) ==> Happened(e, old(dev.disk), dev.disk, reboot))
    ensures reboot ==> !NoLive(old(dev.disk)) && (dev.lost == old(dev.lost) ==> NoLive(dev.disk))
  {
    hide *;
    ghost var w := dev.world;
    dev.Facts();
    reboot := false;
    var ok;
    match e {
      case Started(versions, trusted, hookOk, keysOk, activationOk) =>
        reboot := OnStart(dev, versions, trusted, hookOk, keysOk, activationOk);
        dev.Facts();
        if dev.faults == old(dev.faults) {
          StartHappened(w, dev.world, versions, trusted, hookOk, keysOk, activationOk, reboot);
        }
      case MarkReady(id) =>
        ok := MarkStagedSessionReady(dev, id);
      case MarkSuccessful(id) =>
        ghost var removed;
        ok, removed := MarkStagedSessionSuccessful(dev, id);
      case Abort =>
        ok := AbortActiveSession(dev);
    }
    dev.Facts();
    if dev.faults == old(dev.faults) && !e.Started? {
      OtherHappened(e, w.disk, dev.disk);
    }
  }

  /** Theorem: over any number of boots between two submissions, apexd asks for one reboot at most,
      and one more for each commit or existence test that fails.  What each event does without a failing call is traced. */
  method RunUntilSubmission(dev: Device, events: seq<Event>)
    returns (reboots: nat, ghost disks: seq<Disk>, ghost faults: seq<nat>, ghost asked: seq<bool>)
    requires dev.Valid()
    modifies dev
    ensures Traced(events, disks, faults, asked) && |asked| == |events| && reboots == Count(asked)
    ensures disks[0] == old(dev.disk) && disks[|events|] == dev.disk && faults[0] == old(dev.faults) && faults[|events|] == dev.faults
    ensures dev.Valid() && NothingNewLive(old(dev.disk), dev.disk)
    ensures dev.lost >= old(dev.lost) && dev.stuck >= old(dev.stuck)
    ensures dev.faults - dev.lost - dev.stuck >= old(dev.faults - dev.lost - dev.stuck)
    ensures reboots <= dev.lost - old(dev.lost) + if NoLive(dev.disk) then 1 else 0
    ensures dev.faults == old(dev.faults) ==> reboots <= 1
  {
    ghost var d := dev.disk;
    NothingChanged(d);
    reboots, disks, faults, asked := 0, [d], [dev.faults], [];
    assert Traced(events, disks, faults, asked);
    hide *;
    var i := 0;
    while i < |events|
      invariant Traced(events, disks, faults, asked) && |asked| == i && reboots == Count(asked)
      invariant |disks| == |faults| == i + 1
      invariant disks[0] == d && disks[i] == dev.disk && faults[0] == old(dev.faults) && faults[i] == dev.faults
      invariant 0 <= i <= |events|
      invariant dev.Valid() && NothingNewLive(d, dev.disk)
      invariant dev.lost >= old(dev.lost) && dev.stuck >= old(dev.stuck)
      invariant dev.faults - dev.lost - dev.stuck >= old(dev.faults - dev.lost - dev.stuck)
      invariant reboots <= dev.lost - old(dev.lost) + if NoLive(dev.disk) then 1 else 0
    {
      ghost var m := dev.disk;
      var reboot := Handle(dev, events[i]);
      LiveFromBefore(d, m, dev.disk);
      LiveFromBefore(m, m, dev.disk) by { NothingChanged(m); }
      TracedNext(events, disks, faults, asked, dev.disk, dev.faults, reboot);
      disks, faults, asked := disks + [dev.disk], faults + [dev.faults], asked + [reboot];
      if reboot {
        reboots := reboots + 1;
      }
      i := i + 1;
    }
  }
}
