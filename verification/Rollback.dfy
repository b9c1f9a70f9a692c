// Rolling a session back, and resuming a rollback after a crash (apexd.cpp).
// The device supports no filesystem checkpoints.
module Rollback {
  import opened Names
  import opened Lifecycle
  import opened DeviceModel
  import opened Sessions

  // DoRollback up to the point where its scope guard decides.
  method RestoreBackup(dev: Device, ghost id: int) returns (ok: bool, ghost acts: seq<Action>)
    requires dev.Valid() && RollingBack(dev.disk, id)
    modifies dev
    ensures dev.Valid() && dev.start == old(dev.start) && dev.faults >= old(dev.faults)
    ensures dev.lost >= old(dev.lost) && dev.stuck >= old(dev.stuck)
    ensures dev.faults - dev.lost - dev.stuck >= old(dev.faults - dev.lost - dev.stuck)
    ensures dev.log == old(dev.log) + acts && dev.world == Replay(old(dev.world), acts)
    ensures dev.disk.sessions == old(dev.disk).sessions
    ensures ok ==> dev.lost == old(dev.lost)
    ensures ok ==> Backup in old(dev.disk).dirs && Follows(RollbackStep, old(dev.world), acts)
                   && dev.world == Restored(old(dev.world)) && dev.faults == old(dev.faults)
    ensures !ok ==> Backup !in old(dev.disk).dirs || dev.faults > old(dev.faults)
  {
    hide Follows, Replay, Canonical;
    acts := [];
    NothingReplayed(dev.world);
    assert BackupServes(dev.world, ROLLBACK_IN_PROGRESS);
    var backupExists;
    ok, backupExists := dev.PathExists(Backup);
    if !ok || !backupExists {
      return false, [];
    }
    ok := dev.Probe();  // stat of the active directory, which exists
    if !ok {
      return;
    }
    ghost var w := dev.world;
    ghost var names;
    ok, names := DeleteDirContent(dev, Active);
    acts := Unlinks(Active, names);
    UnlinksReplay(w, Active, names);
    if !ok {
      return;
    }
    EmptiedThenRenamed(w, id, names);
    ok := dev.Do(RenameBackupToActive);
    if !ok {
      return;
    }
    acts := acts + [RenameBackupToActive];
    ok := dev.Probe();  // chmod
  }

  lemma NothingReplayed(w: World)
    ensures Replay(w, []) == w
  {
  }

  // After a failed rollback: the session as it was, or marked as failed.
  ghost predicate StillOrFailed(d: Disk, e: Disk, s: Session) {
    e.sessions == d.sessions || e.sessions == d.sessions[s.id := Some(s.(state := ROLLBACK_FAILED))]
  }

  // DoRollback: a failure marks the session as failed to roll back.
  method DoRollback(dev: Device, session: ApexSession) returns (ok: bool, ghost acts: seq<Action>)
    requires dev.Valid() && session.OnDisk(dev.disk) && session.proto.state == ROLLBACK_IN_PROGRESS
    modifies dev, session
    ensures dev.Valid() && dev.start == old(dev.start) && dev.faults >= old(dev.faults)
    ensures dev.lost >= old(dev.lost) && dev.stuck >= old(dev.stuck)
    ensures dev.faults - dev.lost - dev.stuck >= old(dev.faults - dev.lost - dev.stuck)
    ensures session.proto.id == old(session.proto.id)
    ensures ok ==> dev.log == old(dev.log) + acts && dev.world == Replay(old(dev.world), acts) == Restored(old(dev.world))
                   && Backup in old(dev.disk).dirs && dev.faults == old(dev.faults)
                   && Follows(RollbackStep, old(dev.world), acts) && session.proto == old(session.proto)
                   && session.OnDisk(dev.disk)
    ensures !ok ==> (Backup !in old(dev.disk).dirs || dev.faults > old(dev.faults))
                    && session.proto.state == ROLLBACK_FAILED
    ensures !ok ==> StillOrFailed(old(dev.disk), dev.disk, old(session.proto))
    ensures ok ==> dev.lost == old(dev.lost)
    ensures !ok && dev.lost == old(dev.lost) ==> NoLive(dev.disk)
  {
    ghost var s, d := session.proto, dev.disk;
    dev.Facts();
    hide Inv, Follows, Replay, NoLive;
    ok, acts := RestoreBackup(dev, session.proto.id);
    if !ok {
      var committed := session.UpdateStateAndCommit(dev, ROLLBACK_FAILED);
      if committed {
        OnlyFinalizedLeft(d, dev.disk, session.proto);
      }
    }
  }

  method RollbackStagedSession(dev: Device, session: ApexSession) returns (ok: bool)
    requires dev.Valid() && session.OnDisk(dev.disk) && session.proto.state == STAGED
    modifies dev, session
    ensures dev.Valid() && dev.start == old(dev.start) && dev.faults >= old(dev.faults)
    ensures dev.lost >= old(dev.lost) && dev.stuck >= old(dev.stuck)
    ensures dev.faults - dev.lost - dev.stuck >= old(dev.faults - dev.lost - dev.stuck)
    ensures ok ==> dev.world == Apply(old(dev.world), Commit(old(session.proto).(state := ROLLED_BACK)))
                   && dev.log == old(dev.log) + [Commit(old(session.proto).(state := ROLLED_BACK))]
    ensures !ok ==> dev.faults > old(dev.faults) && dev.lost > old(dev.lost) && dev.world == old(dev.world)
    ensures ok ==> dev.lost == old(dev.lost)
  {
    hide Inv, Follows;
    ok := session.UpdateStateAndCommit(dev, ROLLED_BACK);
  }

  lemma RollbackMakesNothingLive(w: World, s: Session)
    requires Inv(w) && s.id in w.disk.sessions && w.disk.sessions[s.id] == Some(s) && !IsFinalized(s.state)
    ensures NothingNewLive(w.disk, Restored(w).disk) && NothingNewLive(w.disk, Resumed(w, s.id).disk)
    ensures forall e | StillOrFailed(w.disk, e, s) :: NothingNewLive(w.disk, e)
  {
    assert Live(w.disk, s.id);
  }

  // The tail that RollbackActivatedSession and ResumeRollback share.  A failing last commit
  // is only logged; the session is then still in progress and the next boot finishes it.
  method RollBackAndCommit(dev: Device, session: ApexSession) returns (ok: bool, ghost acts: seq<Action>)
    requires dev.Valid() && session.OnDisk(dev.disk) && session.proto.state == ROLLBACK_IN_PROGRESS
    modifies dev, session
    ensures dev.Valid() && dev.start == old(dev.start) && dev.faults >= old(dev.faults)
    ensures dev.lost >= old(dev.lost) && dev.stuck >= old(dev.stuck)
    ensures dev.faults - dev.lost - dev.stuck >= old(dev.faults - dev.lost - dev.stuck)
    ensures ok ==> Backup in old(dev.disk).dirs
                   && dev.log == old(dev.log) + acts && Follows(RollbackStep, old(dev.world), acts)
    ensures ok && dev.lost == old(dev.lost) ==> dev.world == Resumed(old(dev.world), old(session.proto.id))
    ensures ok && dev.lost > old(dev.lost) ==> dev.world == Restored(old(dev.world))
    ensures !ok ==> Backup !in old(dev.disk).dirs || dev.faults > old(dev.faults)
    ensures !ok ==> StillOrFailed(old(dev.disk), dev.disk, old(session.proto))
    ensures NothingNewLive(old(dev.disk), dev.disk)
    ensures dev.lost == old(dev.lost) ==> NoLive(dev.disk)
  {
    ghost var s, w := session.proto, dev.world;
    RollbackMakesNothingLive(w, s);
    hide StillOrFailed, NothingNewLive, NoLive;
    ok, acts := DoRollback(dev, session);
    if ok {
      RestoredThenCommitted(w, s);
      hide Inv, Follows, Replay, Permitted, RollbackStep, Restored, Apply;
      var committed := session.UpdateStateAndCommit(dev, ROLLED_BACK);
      if committed {
        FollowsOne(RollbackStep, w, acts, Commit(session.proto));
        acts := acts + [Commit(session.proto)];
      }
    }
  }

  lemma RestoredThenCommitted(w: World, s: Session)
    requires Inv(w) && s.id in w.disk.sessions && w.disk.sessions[s.id] == Some(s)
    requires s.state == ROLLBACK_IN_PROGRESS && Backup in w.disk.dirs
    ensures var end := Commit(s.(state := ROLLED_BACK));
      && Permitted(Restored(w), end) && RollbackStep(Restored(w), end)
      && Apply(Restored(w), end) == Resumed(w, s.id) && NoLive(Resumed(w, s.id).disk)
  {
    assert RollingBack(w.disk, s.id);
    OnlyFinalizedLeft(w.disk, Resumed(w, s.id).disk, s.(state := ROLLED_BACK));
  }

  method RollbackActivatedSession(dev: Device, session: ApexSession) returns (ok: bool, ghost acts: seq<Action>)
    requires dev.Valid() && session.OnDisk(dev.disk) && session.proto.state == ACTIVATED
    modifies dev, session
    ensures dev.Valid() && dev.start == old(dev.start) && dev.faults >= old(dev.faults)
    ensures dev.lost >= old(dev.lost) && dev.stuck >= old(dev.stuck)
    ensures dev.faults - dev.lost - dev.stuck >= old(dev.faults - dev.lost - dev.stuck)
    ensures ok ==> dev.log == old(dev.log) + [Commit(old(session.proto).(state := ROLLBACK_IN_PROGRESS))] + acts
                   && Follows(RollbackStep, Rolling(old(dev.world), old(session.proto)), acts)
    ensures ok && dev.lost == old(dev.lost) ==> dev.world == RolledBack(old(dev.world), old(session.proto.id))
    ensures ok && dev.lost > old(dev.lost) ==> dev.world == Restored(Rolling(old(dev.world), old(session.proto)))
    ensures dev.faults == old(dev.faults) ==> ok
    ensures NothingNewLive(old(dev.disk), dev.disk)
    ensures dev.lost == old(dev.lost) ==> NoLive(dev.disk)
  {
    RollingKeepsBackup(dev.world, session.proto);
    hide Inv, Follows, Replay, Permitted, Restored, Resumed, Apply, NoLive;
    acts := [];
    ok := session.UpdateStateAndCommit(dev, ROLLBACK_IN_PROGRESS);
    if ok {
      ok, acts := RollBackAndCommit(dev, session);
    }
  }

  // The session just marked as being rolled back.
  ghost function Rolling(w: World, s: Session): World {
    Apply(w, Commit(s.(state := ROLLBACK_IN_PROGRESS)))
  }

  lemma RollingKeepsBackup(w: World, s: Session)
    requires Inv(w) && s.id in w.disk.sessions && w.disk.sessions[s.id] == Some(s) && s.state == ACTIVATED
    ensures Permitted(w, Commit(s.(state := ROLLBACK_IN_PROGRESS)))
    ensures var d := Rolling(w, s).disk;
      s.id in d.sessions && d.sessions[s.id] == Some(s.(state := ROLLBACK_IN_PROGRESS)) && Backup in d.dirs
    ensures NothingNewLive(w.disk, w.disk) && NothingNewLive(w.disk, Rolling(w, s).disk)
  {
    assert Readable(w.disk, s.id);
    assert BackupServes(w, ACTIVATED);
  }

  method ResumeRollback(dev: Device, session: ApexSession) returns (ok: bool, ghost acts: seq<Action>)
    requires dev.Valid() && session.OnDisk(dev.disk) && session.proto.state == ROLLBACK_IN_PROGRESS
    modifies dev, session
    ensures dev.Valid() && dev.start == old(dev.start) && dev.faults >= old(dev.faults)
    ensures dev.lost >= old(dev.lost) && dev.stuck >= old(dev.stuck)
    ensures dev.faults - dev.lost - dev.stuck >= old(dev.faults - dev.lost - dev.stuck)
    ensures ok ==> dev.log == old(dev.log) + acts && Follows(RollbackStep, old(dev.world), acts)
    ensures dev.faults == old(dev.faults) ==> ok && dev.world == Resumed(old(dev.world), old(session.proto.id))
    ensures NothingNewLive(old(dev.disk), dev.disk)
    ensures dev.lost == old(dev.lost) ==> NoLive(dev.disk)
  {
    RollbackMakesNothingLive(dev.world, session.proto);
    NothingFollows(RollbackStep, dev.world);
    acts := [];
    hide *;
    var backupExists;
    ok, backupExists := dev.PathExists(Backup);
    if !ok {
      return;
    }
    if backupExists {
      ok, acts := RollBackAndCommit(dev, session);
    } else {
      acts := CommitRestored(dev, session);
      ok := true;
    }
  }

  // The backup is gone, so it was renamed before: only the commit was missing.
  method CommitRestored(dev: Device, session: ApexSession) returns (ghost acts: seq<Action>)
    requires dev.Valid() && session.OnDisk(dev.disk) && session.proto.state == ROLLBACK_IN_PROGRESS && Backup !in dev.disk.dirs
    modifies dev, session
    ensures dev.Valid() && dev.start == old(dev.start) && dev.faults >= old(dev.faults)
    ensures dev.lost >= old(dev.lost) && dev.stuck >= old(dev.stuck)
    ensures dev.faults - dev.lost - dev.stuck >= old(dev.faults - dev.lost - dev.stuck)
    ensures dev.log == old(dev.log) + acts && Follows(RollbackStep, old(dev.world), acts)
    ensures dev.faults == old(dev.faults) ==> dev.world == Resumed(old(dev.world), old(session.proto.id))
    ensures NothingNewLive(old(dev.disk), dev.disk)
    ensures dev.lost == old(dev.lost) ==> NoLive(dev.disk)
  {
    ghost var s, w := session.proto, dev.world;
    RollbackMakesNothingLive(w, s);
    dev.Facts();
    FinishedAlready(w, s);
    NothingFollows(RollbackStep, w);
    FollowsOne(RollbackStep, w, [], Commit(s.(state := ROLLED_BACK)));
    NothingReplayed(w);
    acts := [];
    hide Inv, Follows, Replay, RollbackStep, Restored, StillOrFailed, NothingNewLive, NoLive, Resumed;
    var committed := session.UpdateStateAndCommit(dev, ROLLED_BACK);
    if committed {
      acts := [] + [Commit(session.proto)];
    }
  }

  lemma NothingFollows(rule: (World, Action) -> bool, w: World)
    ensures Follows(rule, w, [])
  {
  }

  lemma FinishedAlready(w: World, s: Session)
    requires Inv(w) && s.id in w.disk.sessions && w.disk.sessions[s.id] == Some(s)
    requires s.state == ROLLBACK_IN_PROGRESS && Backup !in w.disk.dirs
    ensures RollbackStep(w, Commit(s.(state := ROLLED_BACK)))
    ensures Apply(w, Commit(s.(state := ROLLED_BACK))) == Resumed(w, s.id) && NoLive(Resumed(w, s.id).disk)
  {
    assert RollingBack(w.disk, s.id);
    OnlyFinalizedLeft(w.disk, Resumed(w, s.id).disk, s.(state := ROLLED_BACK));
  }

  /** resumeRollbackIfNeeded */
  method ResumeRollbackIfNeeded(dev: Device) returns (ok: bool, ghost acts: seq<Action>)
    requires dev.Valid()
    modifies dev
    ensures dev.Valid() && dev.start == old(dev.start) && dev.faults >= old(dev.faults)
    ensures dev.lost >= old(dev.lost) && dev.stuck >= old(dev.stuck)
    ensures dev.faults - dev.lost - dev.stuck >= old(dev.faults - dev.lost - dev.stuck)
    ensures ok ==> dev.log == old(dev.log) + acts && Follows(RollbackStep, old(dev.world), acts)
    ensures forall id | RollingBack(old(dev.disk), id) && dev.faults == old(dev.faults) :: dev.world == Resumed(old(dev.world), id)
    ensures (forall id :: !RollingBack(old(dev.disk), id)) ==> dev.world == old(dev.world)
    ensures dev.faults == old(dev.faults) ==> ok
    ensures NothingNewLive(old(dev.disk), dev.disk)
    ensures dev.lost == old(dev.lost) ==> NoneRollingBack(dev.disk)
    ensures dev.lost == old(dev.lost) && !NoneRollingBack(old(dev.disk)) ==> NoLive(dev.disk)
  {
    ghost var w := dev.world;
    var session;
    ok, session := GetActiveSession(dev);
    acts := [];
    NothingFollows(RollbackStep, w);
    OnlyOneRollingBack(w.disk);
    hide Inv, Follows, Resumed;
    if session == null {
      return;
    }
    assert RollingBack(w.disk, session.proto.id) <==> session.proto.state == ROLLBACK_IN_PROGRESS;
    if session.proto.state == ROLLBACK_IN_PROGRESS {
      ok, acts := ResumeRollback(dev, session);
      NoLiveNoneRollingBack(dev.disk);
    } else {
      assert Readable(dev.disk, session.proto.id);
    }
  }

  lemma OnlyOneRollingBack(d: Disk)
    requires UniqueSession(d)
    ensures forall i, j | RollingBack(d, i) && Readable(d, j) :: i == j
    ensures forall i | RollingBack(d, i) :: Live(d, i)
  {
  }

  lemma NoLiveNoneRollingBack(d: Disk)
    ensures NoLive(d) ==> NoneRollingBack(d)
  {
    assert forall id | RollingBack(d, id) :: Live(d, id);
  }

  /** RollbackSession: nothing to do for a session that is being or has been rolled back. */
  method RollbackSession(dev: Device, session: ApexSession) returns (ok: bool)
    requires dev.Valid() && session.OnDisk(dev.disk) && Live(dev.disk, session.proto.id)
    modifies dev, session
    ensures dev.Valid() && dev.start == old(dev.start) && dev.faults >= old(dev.faults)
    ensures dev.lost >= old(dev.lost) && dev.stuck >= old(dev.stuck)
    ensures dev.faults - dev.lost - dev.stuck >= old(dev.faults - dev.lost - dev.stuck)
    ensures NothingNewLive(old(dev.disk), dev.disk)
    ensures old(session.proto.state) == ROLLBACK_IN_PROGRESS ==> ok && dev.world == old(dev.world)
    ensures old(session.proto.state) in {ACTIVATED, STAGED} && dev.faults == old(dev.faults) ==> ok
    ensures old(session.proto.state) == ACTIVATED && ok && dev.lost == old(dev.lost) ==>
              dev.world == RolledBack(old(dev.world), old(session.proto.id))
    ensures old(session.proto.state) == STAGED && ok ==>
              dev.world == Apply(old(dev.world), Commit(old(session.proto).(state := ROLLED_BACK)))
    ensures old(session.proto.state) !in {ROLLBACK_IN_PROGRESS, ACTIVATED, STAGED} ==> !ok && dev.world == old(dev.world)
    ensures ok && dev.lost == old(dev.lost) && old(session.proto.state) != ROLLBACK_IN_PROGRESS ==> NoLive(dev.disk)
    ensures old(session.proto.state) in {ACTIVATED, STAGED} && dev.lost == old(dev.lost) ==> NoLive(dev.disk)
  {
    ghost var s, w := session.proto, dev.world;
    RollbackMakesNothingLive(w, s);
    StagedRollbackMakesNothingLive(w, s);
    FinishedMeansNoneLive(w, s);
    hide Inv, Follows, Replay, RollbackStep, Restored, Rolling, RolledBack, NothingNewLive, NoLive;
    ok := true;
    match session.proto.state
    case ROLLBACK_IN_PROGRESS =>
    case STAGED => ok := RollbackStagedSession(dev, session);
    case ACTIVATED =>
      ghost var acts;
      ok, acts := RollbackActivatedSession(dev, session);
    case _ => ok := false;
  }

  lemma StagedRollbackMakesNothingLive(w: World, s: Session)
    requires Inv(w) && s.id in w.disk.sessions && w.disk.sessions[s.id] == Some(s)
    ensures NothingNewLive(w.disk, w.disk)
    ensures NothingNewLive(w.disk, Apply(w, Commit(s.(state := ROLLED_BACK))).disk)
  {
  }

  // A staged session marked as rolled back; nothing else changes.
  ghost function StagedRolledBack(w: World, id: int): World
    requires Readable(w.disk, id)
  {
    Apply(w, Commit(w.disk.sessions[id].value.(state := ROLLED_BACK)))
  }

  /** rollbackActiveSession: a success that lost no commit finalizes the session, unless its
      rollback was already in progress: then nothing happens at all. */
  method RollbackActiveSession(dev: Device) returns (ok: bool)
    requires dev.Valid()
    modifies dev
    ensures dev.Valid() && dev.start == old(dev.start) && dev.faults >= old(dev.faults)
    ensures dev.lost >= old(dev.lost) && dev.stuck >= old(dev.stuck)
    ensures dev.faults - dev.lost - dev.stuck >= old(dev.faults - dev.lost - dev.stuck)
    ensures NothingNewLive(old(dev.disk), dev.disk)
    ensures NoLive(old(dev.disk)) ==> !ok && dev.world == old(dev.world)
    ensures forall id | InState(old(dev.disk), id, VERIFIED) :: !ok && dev.world == old(dev.world)
    ensures forall id | dev.faults == old(dev.faults) && (InState(old(dev.disk), id, ACTIVATED) || InState(old(dev.disk), id, STAGED)) :: ok
    ensures forall id | ok && dev.lost == old(dev.lost) && InState(old(dev.disk), id, ACTIVATED) ::
              dev.world == RolledBack(old(dev.world), id)
    ensures forall id | ok && InState(old(dev.disk), id, STAGED) :: dev.world == StagedRolledBack(old(dev.world), id)
    ensures ok && dev.lost == old(dev.lost) && NoneRollingBack(old(dev.disk)) ==> NoLive(dev.disk)
    ensures forall id | dev.lost == old(dev.lost) && (InState(old(dev.disk), id, ACTIVATED) || InState(old(dev.disk), id, STAGED)) ::
              NoLive(dev.disk)
    ensures !NoneRollingBack(old(dev.disk)) ==> ok && dev.world == old(dev.world)
  {
    ghost var w := dev.world;
    OnlyOneRollingBack(w.disk);
    WaitingIsLive(w.disk);
    var session;
    ok, session := GetActiveSession(dev);
    if session == null {
      return false;
    }
    ghost var s := session.proto;
    StagedRollbackMakesNothingLive(w, s);
    FinishedMeansNoneLive(w, s);
    assert Live(w.disk, s.id);
    assert RollingBack(w.disk, s.id) <==> s.state == ROLLBACK_IN_PROGRESS;
    assert Readable(w.disk, s.id) && forall id | Readable(w.disk, id) :: id == s.id;
    hide Inv, Follows, RolledBack, NothingNewLive;
    ok := RollbackSession(dev, session);
  }

  lemma FinishedMeansNoneLive(w: World, s: Session)
    requires Inv(w) && s.id in w.disk.sessions && w.disk.sessions[s.id] == Some(s)
    ensures NoLive(RolledBack(w, s.id).disk)
    ensures NoLive(Apply(w, Commit(s.(state := ROLLED_BACK))).disk)
  {
    var final := s.(state := ROLLED_BACK);
    assert Readable(w.disk, s.id);
    assert RolledBack(w, s.id).disk.sessions == w.disk.sessions[s.id := Some(final)] by {
      assert RollingBack(Rolling(w, s).disk, s.id);
    }
    OnlyFinalizedLeft(w.disk, RolledBack(w, s.id).disk, final);
    OnlyFinalizedLeft(w.disk, Apply(w, Commit(final)).disk, final);
  }

  lemma OnlyFinalizedLeft(d: Disk, e: Disk, s: Session)
    requires UniqueSession(d) && Readable(d, s.id)
    requires e.sessions == d.sessions[s.id := Some(s)] && IsFinalized(s.state)
    ensures NoLive(e)
  {
    forall id
      ensures !Live(e, id)
    {
      assert id != s.id && Readable(e, id) ==> Readable(d, id);
    }
  }

  /** rollbackActiveSessionAndReboot: reboots exactly when the rollback reports success. */
  method RollbackActiveSessionAndReboot(dev: Device) returns (ok: bool, reboot: bool)
    requires dev.Valid()
    modifies dev
    ensures dev.Valid() && dev.start == old(dev.start) && dev.faults >= old(dev.faults)
    ensures dev.lost >= old(dev.lost) && dev.stuck >= old(dev.stuck)
    ensures dev.faults - dev.lost - dev.stuck >= old(dev.faults - dev.lost - dev.stuck)
    ensures NothingNewLive(old(dev.disk), dev.disk)
    ensures reboot == ok
    ensures NoLive(old(dev.disk)) ==> !reboot && dev.world == old(dev.world)
    ensures forall id | InState(old(dev.disk), id, VERIFIED) :: !reboot && dev.world == old(dev.world)
    ensures forall id | dev.faults == old(dev.faults) && (InState(old(dev.disk), id, ACTIVATED) || InState(old(dev.disk), id, STAGED)) :: reboot
    ensures forall id | reboot && dev.lost == old(dev.lost) && InState(old(dev.disk), id, ACTIVATED) ::
              dev.world == RolledBack(old(dev.world), id)
    ensures forall id | reboot && InState(old(dev.disk), id, STAGED) :: dev.world == StagedRolledBack(old(dev.world), id)
    ensures reboot && dev.lost == old(dev.lost) && NoneRollingBack(old(dev.disk)) ==> NoLive(dev.disk)
    ensures forall id | dev.lost == old(dev.lost) && (InState(old(dev.disk), id, ACTIVATED) || InState(old(dev.disk), id, STAGED)) ::
              NoLive(dev.disk)
    ensures !NoneRollingBack(old(dev.disk)) ==> reboot && dev.world == old(dev.world)
  {
    ok := RollbackActiveSession(dev);
    reboot := ok;
  }

  /** abortActiveSession */
  method AbortActiveSession(dev: Device) returns (ok: bool)
    requires dev.Valid()
    modifies dev
    ensures dev.Valid() && dev.start == old(dev.start) && dev.faults >= old(dev.faults)
    ensures dev.lost >= old(dev.lost) && dev.stuck >= old(dev.stuck)
    ensures dev.faults - dev.lost - dev.stuck >= old(dev.faults - dev.lost - dev.stuck)
    ensures forall id | dev.faults == old(dev.faults) && (InState(old(dev.disk), id, VERIFIED) || InState(old(dev.disk), id, STAGED)) ::
              ok && id !in dev.disk.sessions && dev.disk.dirs == old(dev.disk).dirs
    ensures forall id | dev.faults == old(dev.faults) && InState(old(dev.disk), id, ACTIVATED) ::
              ok && dev.world == RolledBack(old(dev.world), id)
    ensures !NoneRollingBack(old(dev.disk)) ==> !ok && dev.world == old(dev.world)
    ensures NoLive(old(dev.disk)) ==> ok && dev.world == old(dev.world)
    ensures NothingNewLive(old(dev.disk), dev.disk)
  {
    ghost var w := dev.world;
    NothingChanged(w.disk);
    OnlyOneRollingBack(w.disk);
    WaitingIsLive(w.disk);
    var session;
    ok, session := GetActiveSession(dev);
    if session == null {
      return true;
    }
    ghost var s := session.proto;
    assert Live(w.disk, s.id) && Readable(w.disk, s.id);
    assert forall id | Readable(w.disk, id) :: id == s.id;
    hide Inv, Follows, RolledBack, OnlyRemoved, NothingNewLive;
    match session.proto.state
    case VERIFIED => ok := DeleteSession(dev, session.proto); SameDirs(w.disk, dev.disk, s.id);
    case STAGED => ok := DeleteSession(dev, session.proto); SameDirs(w.disk, dev.disk, s.id);
    case ACTIVATED =>
      ghost var acts;
      ok, acts := RollbackActivatedSession(dev, session);
    case _ => ok := false;
  }

  lemma WaitingIsLive(d: Disk)
    ensures forall id | InState(d, id, VERIFIED) || InState(d, id, STAGED) || InState(d, id, ACTIVATED) :: Live(d, id)
  {
  }

  lemma SameDirs(d: Disk, e: Disk, id: int)
    requires OnlyRemoved(d, e, {id})
    ensures e.dirs == d.dirs && NothingNewLive(d, e)
  {
  }
}
