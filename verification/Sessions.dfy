// Session files (apexd_session.cpp).
module Sessions {
  import opened Names
  import opened Lifecycle
  import opened DeviceModel

  class ApexSession {
    var proto: Session  // state_

    ghost predicate OnDisk(d: Disk)
      reads this
    {
      proto.id in d.sessions && d.sessions[proto.id] == Some(proto)
    }

    constructor (s: Session)
      ensures proto == s
    {
      proto := s;
    }

    // The state changes in memory even when the commit fails.
    method UpdateStateAndCommit(dev: Device, s: State) returns (ok: bool)
      requires dev.Valid() && Permitted(dev.world, Commit(proto.(state := s)))
      modifies this, dev
      ensures dev.Valid() && dev.start == old(dev.start)
      ensures dev.lost >= old(dev.lost) && dev.stuck >= old(dev.stuck)
      ensures dev.faults - dev.lost - dev.stuck >= old(dev.faults - dev.lost - dev.stuck)
      ensures proto == old(proto).(state := s)
      ensures ok ==> dev.world == Apply(old(dev.world), Commit(proto)) && dev.log == old(dev.log) + [Commit(proto)]
                     && dev.faults == old(dev.faults) && dev.lost == old(dev.lost)
      ensures !ok ==> dev.world == old(dev.world) && dev.log == old(dev.log)
                      && dev.faults == old(dev.faults) + 1 && dev.lost == old(dev.lost) + 1
    {
      proto := proto.(state := s);
      ok := dev.Do(Commit(proto));
    }
  }

  ghost predicate Enumerates(list: seq<Session>, d: Disk) {
    && (forall s | s in list :: Readable(d, s.id) && d.sessions[s.id] == Some(s))
    && (forall id | Readable(d, id) :: d.sessions[id].value in list)
    && (forall i, j | 0 <= i < j < |list| :: list[i].id != list[j].id)
  }

  lemma HasMember(s: set<int>)
    requires s != {}
    ensures exists id :: id in s
  {
    assert (forall id :: id !in s) ==> s == {};
  }

  // GetSessions.  Directories whose state file cannot be read are skipped.
  method GetSessions(dev: Device) returns (list: seq<Session>)
    requires dev.Valid()
    ensures Enumerates(list, dev.disk)
  {
    list := [];
    var left := dev.disk.sessions.Keys;
    while left != {}
      invariant left <= dev.disk.sessions.Keys
      invariant forall s | s in list :: s.id !in left && Readable(dev.disk, s.id) && dev.disk.sessions[s.id] == Some(s)
      invariant forall id | Readable(dev.disk, id) && id !in left :: dev.disk.sessions[id].value in list
      invariant forall i, j | 0 <= i < j < |list| :: list[i].id != list[j].id
      decreases left
    {
      HasMember(left);
      var id :| id in left;
      left := left - {id};
      if dev.disk.sessions[id].Some? {
        assert Readable(dev.disk, id);
        list := list + [dev.disk.sessions[id].value];
      }
    }
  }

  method GetSessionsInState(dev: Device, s: State) returns (list: seq<Session>)
    requires dev.Valid()
    ensures forall t | t in list :: t.state == s && Readable(dev.disk, t.id) && dev.disk.sessions[t.id] == Some(t)
    ensures forall id | InState(dev.disk, id, s) :: dev.disk.sessions[id].value in list
    ensures |list| <= 1
  {
    var all := GetSessions(dev);
    hide Follows, BackupServes, Canonical;
    list := [];
    var i := 0;
    while i < |all|
      invariant 0 <= i <= |all|
      invariant forall t | t in list :: t.state == s && t in all[..i]
      invariant forall t | t in all[..i] && t.state == s :: t in list
      invariant |list| <= i
    {
      assert forall t :: t in all[..i + 1] <==> t in all[..i] || t == all[i];
      if all[i].state == s {
        list := list + [all[i]];
      }
      i := i + 1;
    }
    assert all[..|all|] == all;
    OnlyOneListed(dev.disk, all);
  }

  lemma OnlyOneListed(d: Disk, all: seq<Session>)
    requires UniqueSession(d) && Enumerates(all, d)
    ensures |all| <= 1
  {
    if |all| >= 2 {
      SameListed(d, all, 0, 1);
    }
  }

  lemma SameListed(d: Disk, all: seq<Session>, i: nat, j: nat)
    requires UniqueSession(d) && i < |all| && j < |all|
    requires forall s | s in all :: Readable(d, s.id)
    ensures all[i].id == all[j].id
  {
    assert all[i] in all && all[j] in all;
  }

  // GetActiveSession.  The loop can fail on a second live session; by the invariant it never does.
  method GetActiveSession(dev: Device) returns (ok: bool, session: ApexSession?)
    requires dev.Valid()
    ensures ok
    ensures session == null ==> forall id :: !Live(dev.disk, id)
    ensures session != null ==> fresh(session) && session.OnDisk(dev.disk) && Live(dev.disk, session.proto.id)
  {
    var all := GetSessions(dev);
    hide Follows, BackupServes, Canonical;
    OnlyOneListed(dev.disk, all);
    session := null;
    var i := 0;
    while i < |all|
      invariant 0 <= i <= |all|
      invariant session == null ==> forall j | 0 <= j < i :: IsFinalized(all[j].state)
      invariant session != null ==> i > 0 && fresh(session) && session.proto in all && !IsFinalized(session.proto.state)
    {
      if !IsFinalized(all[i].state) {
        if session != null {
          return false, null;
        }
        session := new ApexSession(all[i]);
      }
      i := i + 1;
    }
    ok := true;
    if session == null {
      forall id
        ensures !Live(dev.disk, id)
      {
        assert Readable(dev.disk, id) ==> dev.disk.sessions[id].value in all;
      }
    }
  }

  method GetSession(dev: Device, id: int) returns (session: ApexSession?)
    requires dev.Valid()
    modifies dev`faults
    ensures dev.faults >= old(dev.faults)
    ensures session != null ==> fresh(session) && session.proto.id == id && session.OnDisk(dev.disk)
    ensures session == null ==> !Readable(dev.disk, id) || dev.faults > old(dev.faults)
  {
    session := null;
    if id in dev.disk.sessions && dev.disk.sessions[id].Some? {
      assert Readable(dev.disk, id);
      var ok := dev.Probe();
      if ok {
        session := new ApexSession(dev.disk.sessions[id].value);
      }
    }
  }

  // The disk with some session's directory gone or half gone; everything else as it was.
  ghost predicate OnlyRemoved(d: Disk, e: Disk, ids: set<int>) {
    && e.dirs == d.dirs
    && e.sessions.Keys <= d.sessions.Keys
    && (forall i | i in d.sessions && i !in ids :: i in e.sessions && e.sessions[i] == d.sessions[i])
    && (forall i | i in e.sessions && i in ids :: e.sessions[i] == None || e.sessions[i] == d.sessions[i])
  }

  lemma RemovedStages(d: Disk, id: int)
    requires Readable(d, id)
    ensures OnlyRemoved(d, d, {id})
    ensures OnlyRemoved(d, Effect(d, RemoveStateFile(id)), {id})
    ensures OnlyRemoved(d, Effect(Effect(d, RemoveStateFile(id)), RemoveSessionDir(id)), {id})
  {
  }

  // DeleteSession: remove_all takes the state file first, then the directory.
  method DeleteSession(dev: Device, s: Session) returns (ok: bool)
    requires dev.Valid() && Readable(dev.disk, s.id)
    modifies dev
    ensures dev.Valid() && dev.start == old(dev.start) && dev.faults >= old(dev.faults)
    ensures dev.lost >= old(dev.lost) && dev.stuck >= old(dev.stuck)
    ensures dev.faults - dev.lost - dev.stuck >= old(dev.faults - dev.lost - dev.stuck)
    ensures dev.world == old(dev.world).(disk := dev.disk)
    ensures OnlyRemoved(old(dev.disk), dev.disk, {s.id})
    ensures ok ==> s.id !in dev.disk.sessions && dev.faults == old(dev.faults)
    ensures !ok ==> dev.faults > old(dev.faults)
  {
    hide Inv, Follows, OnlyRemoved;
    ghost var d := dev.disk;
    RemovedStages(d, s.id);
    ok := dev.Do(RemoveStateFile(s.id));
    if !ok {
      return;
    }
    ok := dev.Do(RemoveSessionDir(s.id));
  }

  method ClearSessions(dev: Device) returns (ok: bool)
    requires dev.Valid()
    modifies dev
    ensures dev.Valid() && dev.start == old(dev.start) && dev.faults >= old(dev.faults)
    ensures dev.lost >= old(dev.lost) && dev.stuck >= old(dev.stuck)
    ensures dev.faults - dev.lost - dev.stuck >= old(dev.faults - dev.lost - dev.stuck)
    ensures dev.world == old(dev.world).(disk := dev.disk) && dev.disk.dirs == old(dev.disk).dirs
    ensures dev.disk.sessions.Keys <= old(dev.disk).sessions.Keys
    ensures forall id | Readable(dev.disk, id) :: Readable(old(dev.disk), id)
    ensures ok ==> NoReadable(dev.disk) && dev.faults == old(dev.faults)
    ensures !ok ==> dev.faults > old(dev.faults)
  {
    var all := GetSessions(dev);
    hide Inv, Follows;
    var i := 0;
    ok := true;
    while i < |all|
      invariant 0 <= i <= |all|
      invariant dev.Valid() && dev.start == old(dev.start) && dev.faults == old(dev.faults)
      invariant dev.lost >= old(dev.lost) && dev.stuck >= old(dev.stuck)
      invariant dev.faults - dev.lost - dev.stuck >= old(dev.faults - dev.lost - dev.stuck)
      invariant dev.world == old(dev.world).(disk := dev.disk) && dev.disk.dirs == old(dev.disk).dirs
      invariant dev.disk.sessions.Keys <= old(dev.disk).sessions.Keys
      invariant forall j | i <= j < |all| :: Readable(dev.disk, all[j].id)
      invariant forall id | Readable(dev.disk, id) :: Readable(old(dev.disk), id) && exists j :: i <= j < |all| && all[j].id == id
    {
      assert Readable(dev.disk, all[i].id);
      ok := DeleteSession(dev, all[i]);
      if !ok {
        return;
      }
      i := i + 1;
    }
    ok := true;
  }
}
