// The persistent state of apexd - session files, /data/apex/active and
// /data/apex/backup - as a system of atomic file operations.  A crash keeps the
// effect of a prefix of the operations performed so far, so a property of every
// prefix of a log is a property of every crash point.
module Lifecycle {
  import opened Names

  /** Files.  A hard link shares the inode; a manifest is a fixed part of the content. */
  datatype Inode = Inode(number: nat, manifest: Option<Manifest>)

  type Dir = map<string, Inode>

  datatype Place = Active | Backup | Staging(session: int)

  /** Sessions (session_state.proto) */
  datatype State =
    | UNKNOWN | VERIFIED | STAGED | ACTIVATED | ACTIVATION_FAILED
    | SUCCESS | ROLLBACK_IN_PROGRESS | ROLLED_BACK | ROLLBACK_FAILED

  datatype Session = Session(id: int, state: State, children: seq<int>)

  predicate IsFinalized(s: State) {
    s in {SUCCESS, ACTIVATION_FAILED, ROLLED_BACK, ROLLBACK_FAILED}
  }

  // A session directory whose state file cannot be read maps to None.
  datatype Disk = Disk(sessions: map<int, Option<Session>>, dirs: map<Place, Dir>)

  function Contents(d: Disk, p: Place): Dir {
    if p in d.dirs then d.dirs[p] else map[]
  }

  predicate Readable(d: Disk, id: int) {
    id in d.sessions && d.sessions[id].Some?
  }

  predicate Live(d: Disk, id: int) {
    Readable(d, id) && !IsFinalized(d.sessions[id].value.state)
  }

  predicate InState(d: Disk, id: int, s: State) {
    Readable(d, id) && d.sessions[id].value.state == s
  }

  ghost predicate NoReadable(d: Disk) {
    forall id | id in d.sessions :: d.sessions[id].None?
  }

  predicate Canonical(dir: Dir) {
    forall n | n in dir :: dir[n].manifest.Some? && n == ApexFileName(dir[n].manifest.value)
  }

  // The disk with history: the active set as of the last submit, what the last
  // restoring rename put in place, and whether a file was removed from the backup
  // while a session still depended on it.
  datatype World = World(disk: Disk, saved: Dir, installed: Option<Dir>, discarding: bool)

  datatype Action =
    | MakeSessionDir(id: int)
    | RemoveStateFile(id: int)
    | RemoveSessionDir(id: int)
    | Commit(session: Session)
    | MakeDir(place: Place)
    | Link(place: Place, name: string, inode: Inode)
    | Unlink(place: Place, name: string)
    | RenameBackupToActive
    | Deliver(id: int, files: Dir)  // the installer fills /data/app-staging/session_<id>

  // What an action does to the disk.
  function Effect(d: Disk, a: Action): Disk {
    match a
    case MakeSessionDir(id) => d.(sessions := d.sessions[id := None])
    case RemoveStateFile(id) => d.(sessions := d.sessions[id := None])
    case RemoveSessionDir(id) => d.(sessions := d.sessions - {id})
    case Commit(s) => d.(sessions := d.sessions[s.id := Some(s)])
    case MakeDir(p) => d.(dirs := d.dirs[p := map[]])
    case Link(p, n, i) => d.(dirs := d.dirs[p := Contents(d, p)[n := i]])
    case Unlink(p, n) => d.(dirs := d.dirs[p := Contents(d, p) - {n}])
    case RenameBackupToActive => d.(dirs := (d.dirs - {Backup})[Active := Contents(d, Backup)])
    case Deliver(id, files) => d.(dirs := d.dirs[Staging(id) := files])
  }

  ghost function Apply(w: World, a: Action): World {
    var w' := w.(disk := Effect(w.disk, a));
    match a
    case Commit(s) =>
      if s.state == VERIFIED
      then w'.(saved := Contents(w.disk, Active), installed := None, discarding := false)
      else w'
    case Unlink(p, _) => w'.(discarding := w.discarding || (p == Backup && !NoReadable(w.disk)))
    case RenameBackupToActive => w'.(installed := Some(Contents(w.disk, Backup)))
    case _ => w'
  }

  // The state changes that some operation commits, with what must hold on disk then.
  predicate Advances(d: Disk, s: State, t: State) {
    match s
    case VERIFIED => t == STAGED
    case STAGED => t in {ACTIVATION_FAILED, ROLLED_BACK} || (t == ACTIVATED && Active in d.dirs)
    case ACTIVATED => t in {SUCCESS, ROLLBACK_IN_PROGRESS}
    case ROLLBACK_IN_PROGRESS => t == ROLLBACK_FAILED || (t == ROLLED_BACK && Backup !in d.dirs)
    case _ => false
  }

  // The discipline that every file operation of apexd obeys.
  ghost predicate Permitted(w: World, a: Action) {
    var d := w.disk;
    match a
    case MakeSessionDir(id) => id !in d.sessions
    case RemoveStateFile(id) => Readable(d, id)
    case RemoveSessionDir(id) => id in d.sessions && d.sessions[id].None?
    case Commit(s) =>
      s.id in d.sessions &&
      (match d.sessions[s.id]
       case None => s.state == VERIFIED && NoReadable(d) && Backup in d.dirs && d.dirs[Backup] == Contents(d, Active)
       case Some(prev) => s == prev.(state := s.state) && Advances(d, prev.state, s.state))
    case MakeDir(p) => p !in d.dirs && (p == Active || (p == Backup && NoReadable(d)))
    case Link(p, n, i) =>
      p in d.dirs && n !in d.dirs[p] && i.manifest.Some? && n == ApexFileName(i.manifest.value) &&
      (p == Active || (p == Backup && NoReadable(d) && Active in d.dirs))
    case Unlink(p, n) =>
      p in d.dirs && n in d.dirs[p] &&
      (p == Active || (p == Backup && forall id | Readable(d, id) :: InState(d, id, ACTIVATED)))
    case RenameBackupToActive =>
      Backup in d.dirs && Contents(d, Active) == map[] &&
      forall id | Readable(d, id) :: InState(d, id, ROLLBACK_IN_PROGRESS)
    case Deliver(_, _) => true
  }

  /** The invariant */

  ghost predicate UniqueSession(d: Disk) {
    && (forall i, j | Readable(d, i) && Readable(d, j) :: i == j)
    && (forall i | Readable(d, i) :: d.sessions[i].value.id == i && d.sessions[i].value.state != UNKNOWN)
  }

  predicate Includes(dir: Dir, base: Dir) {
    forall n | n in base :: n in dir && dir[n] == base[n]
  }

  // The set saved at submit time, or what discarding has left of it.
  predicate SavedOrPart(w: World, dir: Dir) {
    Includes(w.saved, dir) && (w.discarding || dir == w.saved)
  }

  ghost predicate BackupServes(w: World, s: State) {
    var d := w.disk;
    match s
    case VERIFIED => Backup in d.dirs && d.dirs[Backup] == w.saved && !w.discarding
    case STAGED => Backup in d.dirs && d.dirs[Backup] == w.saved && !w.discarding
    case ACTIVATED => Active in d.dirs && Backup in d.dirs && SavedOrPart(w, d.dirs[Backup])
    case ROLLBACK_IN_PROGRESS =>
      && Active in d.dirs
      && (if Backup in d.dirs then SavedOrPart(w, d.dirs[Backup])
          else w.installed.Some? && SavedOrPart(w, w.installed.value))
    case _ => true
  }

  ghost predicate Inv(w: World) {
    var d := w.disk;
    && UniqueSession(d)
    && Canonical(Contents(d, Active)) && Canonical(Contents(d, Backup))
    && (Active !in d.dirs ==> Contents(d, Backup) == map[])
    && (forall id | Readable(d, id) :: BackupServes(w, d.sessions[id].value.state))
  }

  ghost predicate Initial(w: World) {
    && NoReadable(w.disk)
    && Canonical(Contents(w.disk, Active)) && Backup !in w.disk.dirs
  }

  // A device without sessions and without a backup satisfies the invariant.
  lemma InitialInv(w: World)
    requires Initial(w)
    ensures Inv(w)
  {
  }

  lemma CommitKeepsInv(w: World, s: Session)
    requires Inv(w) && Permitted(w, Commit(s))
    ensures Inv(Apply(w, Commit(s)))
  {
    var w' := Apply(w, Commit(s));
    assert w'.disk.dirs == w.disk.dirs;
    assert Readable(w.disk, s.id) || NoReadable(w.disk);
    forall i | Readable(w'.disk, i)
      ensures i == s.id
    {
      assert i != s.id ==> Readable(w.disk, i);
    }
    assert BackupServes(w', s.state);
  }

  lemma SessionDirActionKeepsInv(w: World, a: Action)
    requires a.MakeSessionDir? || a.RemoveStateFile? || a.RemoveSessionDir?
    requires Inv(w) && Permitted(w, a)
    ensures Inv(Apply(w, a))
  {
    var w' := Apply(w, a);
    assert w'.disk.dirs == w.disk.dirs;
    assert forall i | Readable(w'.disk, i) :: Readable(w.disk, i) && w'.disk.sessions[i] == w.disk.sessions[i];
  }

  lemma FileActionKeepsInv(w: World, a: Action)
    requires a.MakeDir? || a.Link? || a.Unlink? || a.RenameBackupToActive? || a.Deliver?
    requires Inv(w) && Permitted(w, a)
    ensures Inv(Apply(w, a))
  {
    var w' := Apply(w, a);
    assert w'.disk.sessions == w.disk.sessions;
    assert forall i :: Readable(w'.disk, i) <==> Readable(w.disk, i);
    assert Canonical(Contents(w'.disk, Active)) && Canonical(Contents(w'.disk, Backup));
    forall id | Readable(w'.disk, id)
      ensures BackupServes(w', w'.disk.sessions[id].value.state)
    {
      assert Readable(w.disk, id) && BackupServes(w, w.disk.sessions[id].value.state);
    }
  }

  lemma ActionKeepsInv(w: World, a: Action)
    requires Inv(w) && Permitted(w, a)
    ensures Inv(Apply(w, a))
  {
    match a
    case Commit(s) => CommitKeepsInv(w, s);
    case MakeSessionDir(_) => SessionDirActionKeepsInv(w, a);
    case RemoveStateFile(_) => SessionDirActionKeepsInv(w, a);
    case RemoveSessionDir(_) => SessionDirActionKeepsInv(w, a);
    case _ => FileActionKeepsInv(w, a);
  }

  /** Logs */

  ghost function Replay(w: World, log: seq<Action>): World {
    if log == [] then w else Apply(Replay(w, log[..|log| - 1]), log[|log| - 1])
  }

  ghost predicate Follows(rule: (World, Action) -> bool, w: World, log: seq<Action>) {
    forall k | 0 <= k < |log| :: rule(Replay(w, log[..k]), log[k])
  }

  lemma ReplayOne(w: World, log: seq<Action>, a: Action)
    ensures Replay(w, log + [a]) == Apply(Replay(w, log), a)
  {
    assert (log + [a])[..|log|] == log;
  }

  lemma {:induction false} ReplayConcat(w: World, log: seq<Action>, more: seq<Action>)
    ensures Replay(w, log + more) == Replay(Replay(w, log), more)
  {
    if more == [] {
      assert log + more == log;
    } else {
      var init := more[..|more| - 1];
      ReplayConcat(w, log, init);
      assert log + more == (log + init) + [more[|more| - 1]];
      ReplayOne(w, log + init, more[|more| - 1]);
    }
  }

  lemma FollowsOne(rule: (World, Action) -> bool, w: World, log: seq<Action>, a: Action)
    requires Follows(rule, w, log) && rule(Replay(w, log), a)
    ensures Follows(rule, w, log + [a])
  {
    assert (log + [a])[..|log|] == log;
    assert forall k | 0 <= k < |log| :: (log + [a])[..k] == log[..k];
  }

  lemma FollowsConcat(rule: (World, Action) -> bool, w: World, log: seq<Action>, more: seq<Action>)
    requires Follows(rule, w, log) && Follows(rule, Replay(w, log), more)
    ensures Follows(rule, w, log + more)
  {
    forall k | 0 <= k < |log + more|
      ensures rule(Replay(w, (log + more)[..k]), (log + more)[k])
    {
      if k < |log| {
        assert (log + more)[..k] == log[..k];
      } else {
        assert (log + more)[..k] == log + more[..k - |log|];
        ReplayConcat(w, log, more[..k - |log|]);
      }
    }
  }

  // What a crash leaves behind follows the same rule.
  lemma FollowsPrefix(rule: (World, Action) -> bool, w: World, log: seq<Action>, k: nat)
    requires Follows(rule, w, log) && k <= |log|
    ensures Follows(rule, w, log[..k])
  {
    assert forall j | 0 <= j < k :: log[..k][..j] == log[..j];
  }

  /** Theorem: the invariant holds at every crash point of every run. */
  lemma {:induction false} RunKeepsInv(w: World, log: seq<Action>, k: nat)
    requires Inv(w) && Follows(Permitted, w, log) && k <= |log|
    ensures Inv(Replay(w, log[..k]))
    decreases k
  {
    if k > 0 {
      RunKeepsInv(w, log, k - 1);
      ActionKeepsInv(Replay(w, log[..k - 1]), log[k - 1]);
      assert log[..k] == log[..k - 1] + [log[k - 1]];
      ReplayOne(w, log[..k - 1], log[k - 1]);
    } else {
      assert log[..k] == [];
    }
  }

  /** Theorem: no run ever leaves two live sessions, so GetActiveSession cannot fail on that ground. */
  lemma AtMostOneActiveSession(w: World, log: seq<Action>, k: nat, i: int, j: int)
    requires Inv(w) && Follows(Permitted, w, log) && k <= |log|
    requires Live(Replay(w, log[..k]).disk, i) && Live(Replay(w, log[..k]).disk, j)
    ensures i == j
  {
    RunKeepsInv(w, log, k);
  }

  /** Ranks */

  function Rank(s: State): nat {
    match s
    case UNKNOWN => 0
    case VERIFIED => 1
    case STAGED => 2
    case ACTIVATED => 3
    case ROLLBACK_IN_PROGRESS => 4
    case _ => 5
  }

  ghost predicate NeverDeleted(id: int, log: seq<Action>) {
    forall k | 0 <= k < |log| :: log[k] != RemoveStateFile(id)
  }

  // From d to e, the session moved up or stayed, and stayed if it was finalized.
  predicate MovedUp(d: Disk, e: Disk, id: int) {
    && Readable(d, id) && Readable(e, id)
    && (e.sessions[id] == d.sessions[id] ||
        (!IsFinalized(d.sessions[id].value.state) && Rank(e.sessions[id].value.state) > Rank(d.sessions[id].value.state)))
  }

  lemma ActionMovesUp(w: World, a: Action, id: int)
    requires UniqueSession(w.disk) && Permitted(w, a) && Readable(w.disk, id) && a != RemoveStateFile(id)
    ensures MovedUp(w.disk, Apply(w, a).disk, id)
  {
  }

  /** Theorem: until it is deleted a session only moves up, and a finalized one not at all. */
  lemma {:induction false} SessionOnlyAdvances(w: World, log: seq<Action>, id: int)
    requires Inv(w) && Follows(Permitted, w, log)
    requires Readable(w.disk, id) && NeverDeleted(id, log)
    ensures MovedUp(w.disk, Replay(w, log).disk, id)
  {
    if log != [] {
      var init, a := log[..|log| - 1], log[|log| - 1];
      FollowsPrefix(Permitted, w, log, |init|);
      SessionOnlyAdvances(w, init, id);
      RunKeepsInv(w, log, |init|);
      assert a == log[|init|] && Permitted(Replay(w, init), a);
      ActionMovesUp(Replay(w, init), a, id);
    }
  }

  /** Live sessions */

  // No session is live that was not.
  ghost predicate NothingNewLive(d: Disk, e: Disk) {
    forall id | Live(e, id) :: Live(d, id)
  }

  ghost predicate NoLive(d: Disk) {
    forall id :: !Live(d, id)
  }

  lemma NothingChanged(d: Disk)
    ensures NothingNewLive(d, d)
  {
  }

  lemma ActionMakesNothingLive(w: World, a: Action)
    requires Permitted(w, a) && !(a.Commit? && a.session.state == VERIFIED)
    ensures NothingNewLive(w.disk, Apply(w, a).disk)
  {
  }

  /** Theorem: between two submissions no crash point of any run has a live session that an earlier one had not. */
  lemma {:induction false} NoLiveUntilSubmission(w: World, log: seq<Action>, k: nat, m: nat)
    requires Follows(Permitted, w, log) && k <= m <= |log|
    requires forall i | k <= i < m :: !(log[i].Commit? && log[i].session.state == VERIFIED)
    ensures NothingNewLive(Replay(w, log[..k]).disk, Replay(w, log[..m]).disk)
    decreases m
  {
    hide Apply, Permitted, NothingNewLive;
    var before := Replay(w, log[..k]).disk;
    NothingChanged(before);
    if k < m {
      NoLiveUntilSubmission(w, log, k, m - 1);
      assert log[..m] == log[..m - 1] + [log[m - 1]];
      ReplayOne(w, log[..m - 1], log[m - 1]);
      hide Replay;
      ActionMakesNothingLive(Replay(w, log[..m - 1]), log[m - 1]);
      NothingNewTwice(before, Replay(w, log[..m - 1]).disk, Replay(w, log[..m]).disk);
    }
  }

  lemma NothingNewTwice(d: Disk, m: Disk, e: Disk)
    requires NothingNewLive(d, m) && NothingNewLive(m, e)
    ensures NothingNewLive(d, e)
  {
  }

  /** Emptying a directory */

  function ToSet(names: seq<string>): set<string> {
    set n | n in names
  }

  function Unlinks(p: Place, names: seq<string>): seq<Action> {
    seq(|names|, i requires 0 <= i < |names| => Unlink(p, names[i]))
  }

  ghost predicate Lists(names: seq<string>, dir: Dir) {
    && (forall n :: n in names <==> n in dir)
    && (forall i, j | 0 <= i < j < |names| :: names[i] != names[j])
  }

  // The disk after some files of a directory are gone.
  function Without(d: Disk, p: Place, names: seq<string>): Disk
    requires p in d.dirs
  {
    d.(dirs := d.dirs[p := d.dirs[p] - ToSet(names)])
  }

  lemma {:induction false} UnlinksReplay(w: World, p: Place, names: seq<string>)
    requires p in w.disk.dirs
    ensures var u := Replay(w, Unlinks(p, names));
      && u.disk == Without(w.disk, p, names)
      && u.saved == w.saved && u.installed == w.installed
      && (p != Backup || NoReadable(w.disk) ==> u.discarding == w.discarding)
  {
    if names != [] {
      var init := names[..|names| - 1];
      UnlinksReplay(w, p, init);
      OneMoreUnlink(w, p, w.disk.dirs[p], names, |init|);
      assert names[..|init| + 1] == names;
      hide Unlinks, Replay, NoReadable;
      UnlinkAfter(w, p, init, names, Replay(w, Unlinks(p, init)));
    } else {
      assert w.disk.dirs[p] - ToSet(names) == w.disk.dirs[p];
      assert w.disk.dirs[p := w.disk.dirs[p]] == w.disk.dirs;
    }
  }

  lemma UnlinkAfter(w: World, p: Place, init: seq<string>, names: seq<string>, u: World)
    requires p in w.disk.dirs && |names| == |init| + 1 && names[..|init|] == init
    requires u.disk == Without(w.disk, p, init)
    ensures var v := Apply(u, Unlink(p, names[|init|]));
      && v.disk == Without(w.disk, p, names) && v.saved == u.saved && v.installed == u.installed
      && (p != Backup || NoReadable(w.disk) ==> v.discarding == u.discarding)
  {
    assert names == init + [names[|init|]];
    assert w.disk.dirs[p] - ToSet(init) - {names[|init|]} == w.disk.dirs[p] - ToSet(names);
    assert forall id :: Readable(u.disk, id) <==> Readable(w.disk, id);
  }

  lemma OneMoreUnlink(w: World, p: Place, dir: Dir, names: seq<string>, i: nat)
    requires i < |names|
    ensures dir - ToSet(names[..i + 1]) == dir - ToSet(names[..i]) - {names[i]}
    ensures Unlinks(p, names[..i + 1]) == Unlinks(p, names[..i]) + [Unlink(p, names[i])]
    ensures Replay(w, Unlinks(p, names[..i + 1])) == Apply(Replay(w, Unlinks(p, names[..i])), Unlink(p, names[i]))
  {
    assert names[..i + 1] == names[..i] + [names[i]];
    assert Unlinks(p, names[..i + 1]) == Unlinks(p, names[..i]) + [Unlink(p, names[i])];
    ReplayOne(w, Unlinks(p, names[..i]), Unlink(p, names[i]));
  }

  lemma WithoutAll(d: Disk, p: Place, names: seq<string>)
    requires p in d.dirs && Lists(names, d.dirs[p])
    ensures Without(d, p, names) == d.(dirs := d.dirs[p := map[]])
  {
    assert d.dirs[p] - ToSet(names) == map[];
  }

  /** Rollback */

  predicate RollingBack(d: Disk, id: int) {
    InState(d, id, ROLLBACK_IN_PROGRESS)
  }

  ghost predicate NoneRollingBack(d: Disk) {
    forall id :: !RollingBack(d, id)
  }

  // The operations DoRollback and ResumeRollback perform when none of them fails.
  ghost predicate RollbackStep(w: World, a: Action) {
    var d := w.disk;
    match a
    case Unlink(Active, _) => Backup in d.dirs && exists id :: RollingBack(d, id)
    case RenameBackupToActive => Backup in d.dirs && Contents(d, Active) == map[] && exists id :: RollingBack(d, id)
    case Commit(s) =>
      s.state == ROLLED_BACK && RollingBack(d, s.id) && Backup !in d.dirs &&
      s == d.sessions[s.id].value.(state := ROLLED_BACK)
    case _ => false
  }

  lemma UnlinksAreRollbackSteps(w: World, id: int, names: seq<string>)
    requires RollingBack(w.disk, id) && Active in w.disk.dirs && Backup in w.disk.dirs
    ensures Follows(RollbackStep, w, Unlinks(Active, names))
  {
    forall k | 0 <= k < |names|
      ensures RollbackStep(Replay(w, Unlinks(Active, names)[..k]), Unlinks(Active, names)[k])
    {
      assert Unlinks(Active, names)[..k] == Unlinks(Active, names[..k]);
      UnlinksReplay(w, Active, names[..k]);
      assert RollingBack(Replay(w, Unlinks(Active, names)[..k]).disk, id);
    }
  }

  // The backup in place of the active directory.
  ghost function Restored(w: World): World {
    Apply(w.(disk := w.disk.(dirs := w.disk.dirs[Active := map[]])), RenameBackupToActive)
  }

  lemma SameSessionsOne(d: Disk, e: Disk, id: int)
    requires UniqueSession(d) && RollingBack(d, id) && e.sessions == d.sessions
    ensures RollingBack(e, id) && forall i | Readable(e, i) :: i == id
  {
    assert forall i | Readable(e, i) :: Readable(d, i);
  }

  lemma EmptiedThenRenamed(w: World, id: int, names: seq<string>)
    requires RollingBack(w.disk, id) && Active in w.disk.dirs && Backup in w.disk.dirs
    requires UniqueSession(w.disk) && Lists(names, w.disk.dirs[Active])
    ensures var log := Unlinks(Active, names);
      && Permitted(Replay(w, log), RenameBackupToActive)
      && Follows(RollbackStep, w, log + [RenameBackupToActive])
      && Apply(Replay(w, log), RenameBackupToActive) == Replay(w, log + [RenameBackupToActive]) == Restored(w)
  {
    var log := Unlinks(Active, names);
    UnlinksReplay(w, Active, names);
    UnlinksAreRollbackSteps(w, id, names);
    WithoutAll(w.disk, Active, names);
    var d := Replay(w, log).disk;
    SameSessionsOne(w.disk, d, id);
    FollowsOne(RollbackStep, w, log, RenameBackupToActive);
    ReplayOne(w, log, RenameBackupToActive);
  }

  // What an uninterrupted resumeRollbackIfNeeded makes of a session.
  ghost function Resumed(w: World, id: int): World {
    if !RollingBack(w.disk, id) then w
    else
      var restored := if Backup in w.disk.dirs then Restored(w) else w;
      Apply(restored, Commit(w.disk.sessions[id].value.(state := ROLLED_BACK)))
  }

  ghost predicate RestoringTo(w: World, id: int, b: Dir) {
    var d := w.disk;
    && Readable(d, id) && d.sessions[id].value.id == id
    && (forall i | Readable(d, i) :: i == id)
    && match d.sessions[id].value.state
       case ROLLBACK_IN_PROGRESS => if Backup in d.dirs then d.dirs[Backup] == b else Contents(d, Active) == b
       case ROLLED_BACK => Backup !in d.dirs && Contents(d, Active) == b
       case _ => false
  }

  lemma RollbackStepKeepsRestoring(w: World, a: Action, id: int, b: Dir)
    requires RestoringTo(w, id, b) && RollbackStep(w, a)
    ensures RestoringTo(Apply(w, a), id, b)
  {
    var w' := Apply(w, a);
    forall i | Readable(w'.disk, i)
      ensures i == id
    {
      assert i != id ==> Readable(w.disk, i);
    }
  }

  lemma {:induction false} RollbackKeepsRestoring(w: World, log: seq<Action>, id: int, b: Dir)
    requires RestoringTo(w, id, b) && Follows(RollbackStep, w, log)
    ensures RestoringTo(Replay(w, log), id, b)
  {
    hide RestoringTo, Apply;
    if log != [] {
      var init, a := log[..|log| - 1], log[|log| - 1];
      FollowsPrefix(RollbackStep, w, log, |init|);
      RollbackKeepsRestoring(w, init, id, b);
      assert a == log[|init|] && RollbackStep(Replay(w, init), a);
      RollbackStepKeepsRestoring(Replay(w, init), a, id, b);
    }
  }

  // The rollback is over and the active set is b.
  predicate RestoredTo(d: Disk, id: int, b: Dir) {
    Contents(d, Active) == b && InState(d, id, ROLLED_BACK) && Backup !in d.dirs
  }

  lemma ResumedRestores(w: World, id: int, b: Dir)
    requires RestoringTo(w, id, b)
    ensures RestoredTo(Resumed(w, id).disk, id, b)
  {
  }

  // Crashed attempts, each keeping a prefix of its operations, one after the other.
  function Flatten(attempts: seq<seq<Action>>): seq<Action> {
    if attempts == [] then [] else Flatten(attempts[..|attempts| - 1]) + attempts[|attempts| - 1]
  }

  ghost predicate Attempts(w: World, attempts: seq<seq<Action>>) {
    forall k | 0 <= k < |attempts| :: Follows(RollbackStep, Replay(w, Flatten(attempts[..k])), attempts[k])
  }

  lemma {:induction false} AttemptsFollow(w: World, attempts: seq<seq<Action>>)
    requires Attempts(w, attempts)
    ensures Follows(RollbackStep, w, Flatten(attempts))
  {
    if attempts != [] {
      var init := attempts[..|attempts| - 1];
      assert forall k | 0 <= k < |init| :: init[k] == attempts[k] && init[..k] == attempts[..k];
      AttemptsFollow(w, init);
      FollowsConcat(RollbackStep, w, Flatten(init), attempts[|attempts| - 1]);
    }
  }

  /** Theorem: once ROLLBACK_IN_PROGRESS is committed in a run, any number of crashed
      attempts followed by one that completes restores exactly the set of submit time, or
      the part of it that was left in the backup if discarding had begun. */
  lemma CrashSafeRollback(start: World, log: seq<Action>, w: World, id: int, attempts: seq<seq<Action>>)
    requires Inv(start) && Follows(Permitted, start, log) && w == Replay(start, log)
    requires RollingBack(w.disk, id) && Backup in w.disk.dirs && Attempts(w, attempts)
    ensures RestoredTo(Resumed(Replay(w, Flatten(attempts)), id).disk, id, w.disk.dirs[Backup])
    ensures SavedOrPart(w, w.disk.dirs[Backup])
  {
    RunKeepsInv(start, log, |log|);
    assert log[..|log|] == log;
    RollingBackRestores(w, id);
    AttemptsFollow(w, attempts);
    RollbackKeepsRestoring(w, Flatten(attempts), id, w.disk.dirs[Backup]);
    ResumedRestores(Replay(w, Flatten(attempts)), id, w.disk.dirs[Backup]);
  }

  lemma RollingBackRestores(w: World, id: int)
    requires Inv(w) && RollingBack(w.disk, id) && Backup in w.disk.dirs
    ensures RestoringTo(w, id, w.disk.dirs[Backup]) && SavedOrPart(w, w.disk.dirs[Backup])
  {
    assert BackupServes(w, ROLLBACK_IN_PROGRESS);
  }

  /** Where the promise fails: marking a session successful empties the backup first. */

  // Rolling back an activated session to the end.
  ghost function RolledBack(w: World, id: int): World
    requires Readable(w.disk, id)
  {
    var rolling := Apply(w, Commit(w.disk.sessions[id].value.(state := ROLLBACK_IN_PROGRESS)));
    Resumed(rolling, id)
  }

  lemma RolledBackInstallsBackup(w: World, id: int)
    requires InState(w.disk, id, ACTIVATED) && w.disk.sessions[id].value.id == id && Backup in w.disk.dirs
    ensures Contents(RolledBack(w, id).disk, Active) == w.disk.dirs[Backup]
  {
  }

  /** markStagedSessionSuccessful interrupted after k unlinks, then a rollback: the saved set
      comes back exactly when no file had been removed yet. */
  lemma InterruptedDiscard(w: World, id: int, names: seq<string>, k: nat)
    requires Inv(w) && InState(w.disk, id, ACTIVATED) && !w.discarding
    requires Lists(names, w.disk.dirs[Backup]) && k <= |names|
    ensures var crashed := Replay(w, Unlinks(Backup, names)[..k]);
      && InState(crashed.disk, id, ACTIVATED)
      && (Contents(RolledBack(crashed, id).disk, Active) == w.saved <==> k == 0)
  {
    assert Unlinks(Backup, names)[..k] == Unlinks(Backup, names[..k]);
    UnlinksReplay(w, Backup, names[..k]);
    var crashed := Replay(w, Unlinks(Backup, names)[..k]);
    assert crashed.disk.dirs[Backup] == w.saved - ToSet(names[..k]);
    RolledBackInstallsBackup(crashed, id);
    if k > 0 {
      assert names[0] in names[..k] && names[0] in w.saved;
    } else {
      assert w.saved - ToSet(names[..k]) == w.saved;
    }
  }

  /** Where atomic commits matter: a commit cut between truncating and writing leaves a
      file that reads as session 0 in state UNKNOWN, and deleting that session by its id
      does not touch the directory it lies in. */
  ghost function TornCommit(w: World, id: int): World {
    w.(disk := w.disk.(sessions := w.disk.sessions[id := Some(Session(0, UNKNOWN, []))]))
  }

  // The effect of DeleteSession on a session read from some directory: by its own id.
  ghost function DeleteById(d: Disk, s: Session): Disk {
    d.(sessions := d.sessions - {s.id})
  }

  // The disk after a session was cleared by the id in its state file, and the next one submitted.
  ghost function NextSubmitted(d: Disk, s: Session, newId: int): Disk {
    var cleared := DeleteById(d, s);
    cleared.(sessions := cleared.sessions[newId := Some(Session(newId, VERIFIED, []))])
  }

  /** Theorem: after a torn commit of session id the next submission leaves one session exactly if the
      torn file lies where its id 0 points, or the new session takes its place. */
  lemma TornCommitClears(w: World, id: int, newId: int)
    requires Inv(w) && Readable(w.disk, id)
    ensures var torn := TornCommit(w, id).disk;
      UniqueSession(NextSubmitted(torn, torn.sessions[id].value, newId)) <==> id == 0 || newId == id
  {
    var torn := TornCommit(w, id).disk;
    var next := NextSubmitted(torn, torn.sessions[id].value, newId);
    assert Readable(next, newId);
    assert forall i | Readable(next, i) && i != newId && i != id :: Readable(w.disk, i);
    if id != 0 && newId != id {
      assert Readable(next, id);
    }
  }

  // Then both sessions count as live.
  lemma TornCommitSurvivesClearing(w: World, id: int, newId: int)
    requires Inv(w) && Readable(w.disk, id) && id != 0 && newId != id
    ensures var torn := TornCommit(w, id).disk;
      var next := NextSubmitted(torn, torn.sessions[id].value, newId);
      Live(next, id) && Live(next, newId)
  {
  }

  /** Theorem: if clearing does not see a session, because listing the directory failed, the next
      submission leaves one session exactly if it takes the same id. */
  lemma UnlistedSessionStays(d: Disk, id: int, newId: int)
    requires UniqueSession(d) && Readable(d, id)
    ensures UniqueSession(d.(sessions := d.sessions[newId := Some(Session(newId, VERIFIED, []))])) <==> newId == id
  {
    var next := d.(sessions := d.sessions[newId := Some(Session(newId, VERIFIED, []))]);
    assert Readable(next, newId);
    assert forall i | Readable(next, i) && i != newId :: Readable(d, i);
    if newId != id {
      assert Readable(next, id);
    }
  }
}
