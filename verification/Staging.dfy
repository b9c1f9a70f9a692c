// Putting packages into the active directory (stagePackages and its helpers in apexd.cpp).
// A path is represented by the file behind it, and a path that ApexFile::Open cannot open
// by a file without a manifest.
module Staging {
  import opened Names
  import opened Lifecycle

  /** The intended result */

  predicate IsApex(f: Inode) {
    f.manifest.Some?
  }

  predicate AllApexes(files: seq<Inode>) {
    forall i | 0 <= i < |files| :: IsApex(files[i])
  }

  // StageDestPath, and the package name; both are meant for APEX files.
  function DestName(f: Inode): string {
    if IsApex(f) then ApexFileName(f.manifest.value) else ""
  }

  function PackageOf(f: Inode): string {
    if IsApex(f) then f.manifest.value.name else ""
  }

  // versions: package name to version of what is active, as GetActivePackagesMap gives it.
  predicate AlreadyActive(versions: map<string, nat>, f: Inode) {
    IsApex(f) && PackageOf(f) in versions && versions[PackageOf(f)] == Unsigned(f.manifest.value.version)
  }

  predicate NeedsStaging(active: Dir, versions: map<string, nat>, f: Inode) {
    IsApex(f) ==> DestName(f) !in active && !AlreadyActive(versions, f)
  }

  function ToStage(active: Dir, versions: map<string, nat>, files: seq<Inode>): (r: seq<Inode>)
    ensures forall f :: f in r <==> f in files && NeedsStaging(active, versions, f)
    ensures forall f | f in files && f.manifest.Some? ::
              var m := f.manifest.value;
              f in r <==> m.name + "@" + ToString(m.version) + ".apex" !in active
                          && (m.name in versions ==> versions[m.name] != Unsigned(m.version))
  {
    if files == [] then []
    else
      var init, last := ToStage(active, versions, files[..|files| - 1]), files[|files| - 1];
      if NeedsStaging(active, versions, last) then init + [last] else init
  }

  function DestNames(files: seq<Inode>): set<string> {
    set f | f in files && IsApex(f) :: DestName(f)
  }

  function PackagesOf(files: seq<Inode>): set<string> {
    set f | f in files && IsApex(f) :: PackageOf(f)
  }

  function PackagesIn(dir: Dir): set<string> {
    set n | n in dir && IsApex(dir[n]) :: PackageOf(dir[n])
  }

  ghost predicate DistinctDests(files: seq<Inode>) {
    forall i, j | 0 <= i < j < |files| && IsApex(files[i]) && IsApex(files[j]) :: DestName(files[i]) != DestName(files[j])
  }

  function Superseded(f: Inode, name: string, packages: set<string>, keep: set<string>): bool {
    IsApex(f) && PackageOf(f) in packages && name !in keep
  }

  function Pruned(dir: Dir, packages: set<string>, keep: set<string>): Dir {
    map n | n in dir && !Superseded(dir[n], n, packages, keep) :: dir[n]
  }

  function LinkAll(active: Dir, files: seq<Inode>): Dir {
    if files == [] then active
    else LinkAll(active, files[..|files| - 1])[DestName(files[|files| - 1]) := files[|files| - 1]]
  }

  // The active set after the given files were staged.
  function StageResult(active: Dir, staged: seq<Inode>): Dir {
    Pruned(LinkAll(active, staged), PackagesOf(staged), DestNames(staged))
  }

  // The staged files link cleanly: all are APEXes, with distinct names not yet taken.
  ghost predicate Linkable(active: Dir, staged: seq<Inode>) {
    AllApexes(staged) && DistinctDests(staged) && forall f | f in staged :: DestName(f) !in active
  }

  lemma LinkableInit(active: Dir, init: seq<Inode>, last: Inode)
    requires Linkable(active, init + [last])
    ensures Linkable(active, init) && IsApex(last)
    ensures DestName(last) !in DestNames(init) && DestName(last) !in active
    ensures DestNames(init + [last]) == DestNames(init) + {DestName(last)}
    ensures LinkAll(active, init + [last]) == LinkAll(active, init)[DestName(last) := last]
    ensures forall f | f in init :: IsApex(f) && DestName(f) in DestNames(init)
  {
    var files := init + [last];
    assert files[..|files| - 1] == init && files[|init|] == last;
    assert forall i | 0 <= i < |init| :: files[i] == init[i];
    assert last in files;
  }

  lemma {:induction false} LinkAllContents(active: Dir, files: seq<Inode>)
    requires Linkable(active, files)
    ensures var dir := LinkAll(active, files);
      && dir.Keys == active.Keys + DestNames(files)
      && (forall n | n in active :: dir[n] == active[n])
      && (forall f | f in files :: dir[DestName(f)] == f)
  {
    hide *;
    NoContents(active);
    if files != [] {
      var init, last := files[..|files| - 1], files[|files| - 1];
      assert files == init + [last];
      LinkableInit(active, init, last);
      LinkAllContents(active, init);
      ContentsNext(active, init, last, LinkAll(active, init));
    }
  }

  lemma NoContents(active: Dir)
    ensures LinkAll(active, []) == active && DestNames([]) == {}
  {
  }

  lemma ContentsNext(active: Dir, init: seq<Inode>, last: Inode, dir: Dir)
    requires dir.Keys == active.Keys + DestNames(init)
    requires forall n | n in active :: dir[n] == active[n]
    requires forall f | f in init :: DestName(f) in DestNames(init) && dir[DestName(f)] == f
    requires DestName(last) !in DestNames(init) && DestName(last) !in active
    requires DestNames(init + [last]) == DestNames(init) + {DestName(last)}
    ensures var dir' := dir[DestName(last) := last];
      && dir'.Keys == active.Keys + DestNames(init + [last])
      && (forall n | n in active :: dir'[n] == active[n])
      && (forall f | f in init + [last] :: dir'[DestName(f)] == f)
  {
    hide *;
    var dir' := dir[DestName(last) := last];
    forall f | f in init + [last]
      ensures DestName(f) in dir' && dir'[DestName(f)] == f
    {
      assert f in init || f == last;
    }
  }

  lemma StagedNameIsStaged(active: Dir, staged: seq<Inode>, n: string)
    requires Linkable(active, staged) && n in DestNames(staged)
    ensures n in LinkAll(active, staged) && LinkAll(active, staged)[n] in staged && DestName(LinkAll(active, staged)[n]) == n
  {
    LinkAllContents(active, staged);
    var f :| f in staged && DestName(f) == n;
  }

  // Exactly the staged files, and the old files of all other packages.
  ghost predicate StagedOver(active: Dir, staged: seq<Inode>, r: Dir) {
    && (forall f | f in staged :: DestName(f) in r && r[DestName(f)] == f)
    && (forall n | n in active && PackageOf(active[n]) !in PackagesOf(staged) :: n in r && r[n] == active[n])
    && (forall n | n in r :: (r[n] in staged && n == DestName(r[n]))
                          || (n in active && r[n] == active[n] && PackageOf(active[n]) !in PackagesOf(staged)))
  }

  /** Theorem: what a successful staging leaves. */
  lemma StageResultContents(active: Dir, staged: seq<Inode>)
    requires Canonical(active) && Linkable(active, staged)
    ensures StagedOver(active, staged, StageResult(active, staged))
    ensures forall n | n in active :: active[n].manifest.Some?
    ensures forall n | n in active ::
              if exists f :: f in staged && f.manifest.Some? && f.manifest.value.name == active[n].manifest.value.name
              then n !in StageResult(active, staged)
              else n in StageResult(active, staged) && StageResult(active, staged)[n] == active[n]
  {
    LinkAllContents(active, staged);
    LinkedPackages(active, staged);
    var dir := LinkAll(active, staged);
    forall n | n in dir && n !in active
      ensures dir[n] in staged && n == DestName(dir[n])
    {
      StagedNameIsStaged(active, staged, n);
    }
    PrunedIsStagedOver(active, staged, dir);
    SameNameGoes(active, staged, StageResult(active, staged));
  }

  // A file goes exactly if one of its package is staged.
  lemma SameNameGoes(active: Dir, staged: seq<Inode>, r: Dir)
    requires Canonical(active) && Linkable(active, staged) && StagedOver(active, staged, r)
    ensures forall n | n in active :: active[n].manifest.Some?
    ensures forall n | n in active ::
              if exists f :: f in staged && f.manifest.Some? && f.manifest.value.name == active[n].manifest.value.name
              then n !in r else n in r && r[n] == active[n]
  {
    forall n | n in active
      ensures active[n].manifest.Some?
      ensures PackageOf(active[n]) in PackagesOf(staged) <==>
                exists f :: f in staged && f.manifest.Some? && f.manifest.value.name == active[n].manifest.value.name
      ensures forall f | f in staged :: DestName(f) != n
    {
    }
    hide Linkable, Canonical, DestName, PackageOf, PackagesOf;
  }

  lemma LinkedPackages(active: Dir, staged: seq<Inode>)
    requires Canonical(active) && Linkable(active, staged)
    ensures forall n | n in active :: IsApex(active[n])
    ensures forall f | f in staged :: DestName(f) in DestNames(staged) && DestName(f) !in active
    ensures DestNames(staged) !! active.Keys
  {
  }

  lemma PrunedIsStagedOver(active: Dir, staged: seq<Inode>, dir: Dir)
    requires forall n | n in active :: IsApex(active[n]) && n in dir && dir[n] == active[n]
    requires forall f | f in staged :: DestName(f) in DestNames(staged) && DestName(f) in dir && dir[DestName(f)] == f
    requires DestNames(staged) !! active.Keys
    requires forall n | n in dir && n !in active :: dir[n] in staged && n == DestName(dir[n])
    ensures StagedOver(active, staged, Pruned(dir, PackagesOf(staged), DestNames(staged)))
  {
    hide DestNames, PackagesOf, DestName, PackageOf, IsApex;
  }

  /** No package that had a file is left without one. */
  lemma StageResultPackages(active: Dir, staged: seq<Inode>, r: Dir)
    requires Canonical(active) && AllApexes(staged) && StagedOver(active, staged, r)
    ensures Canonical(r) && PackagesIn(r) == PackagesIn(active) + PackagesOf(staged)
  {
    forall p | p in PackagesIn(active)
      ensures p in PackagesIn(r)
    {
      var n :| n in active && PackageOf(active[n]) == p;
      if p in PackagesOf(staged) {
        var f :| f in staged && PackageOf(f) == p;
        assert DestName(f) in r;
      } else {
        assert n in r;
      }
    }
    forall p | p in PackagesOf(staged)
      ensures p in PackagesIn(r)
    {
      var f :| f in staged && PackageOf(f) == p;
      assert DestName(f) in r && r[DestName(f)] == f;
    }
  }

  /** With distinct package names every requested package is served, keeps no other version,
      and staging the same files again finds nothing to do. */

  ghost predicate DistinctPackages(files: seq<Inode>) {
    forall i, j | 0 <= i < j < |files| && IsApex(files[i]) && IsApex(files[j]) :: PackageOf(files[i]) != PackageOf(files[j])
  }

  lemma StagingServesRequest(active: Dir, versions: map<string, nat>, files: seq<Inode>, f: Inode)
    requires Canonical(active) && AllApexes(files) && f in files
    requires var staged := ToStage(active, versions, files); AllApexes(staged) && Linkable(active, staged)
    ensures var staged := ToStage(active, versions, files);
      var r := StageResult(active, staged);
      DestName(f) in r || AlreadyActive(versions, f) <==>
        !(DestName(f) in active && PackageOf(f) in PackagesOf(staged)) || AlreadyActive(versions, f)
  {
    var staged := ToStage(active, versions, files);
    StageResultContents(active, staged);
    if f in staged {
    } else if DestName(f) in active {
      var g := active[DestName(f)];
      ApexFileNameInjective(f.manifest.value, g.manifest.value);
      assert PackageOf(g) == PackageOf(f);
    }
  }

  /** A requested version other than the active one that is not in the directory yet is in place afterwards. */
  lemma NewVersionIsPlaced(active: Dir, versions: map<string, nat>, files: seq<Inode>, f: Inode)
    requires Canonical(active) && AllApexes(files) && f in files && f.manifest.Some?
    requires var staged := ToStage(active, versions, files); AllApexes(staged) && Linkable(active, staged)
    requires var m := f.manifest.value;
      m.name + "@" + ToString(m.version) + ".apex" !in active && (m.name in versions ==> versions[m.name] != Unsigned(m.version))
    ensures var r := StageResult(active, ToStage(active, versions, files));
      var name := f.manifest.value.name + "@" + ToString(f.manifest.value.version) + ".apex";
      name in r && r[name] == f
  {
    var staged := ToStage(active, versions, files);
    assert f in staged;
    StageResultContents(active, staged);
    assert DestName(f) == f.manifest.value.name + "@" + ToString(f.manifest.value.version) + ".apex";
    hide StageResult, ToStage, Linkable, Canonical, ToString;
  }

  // The request is granted: the file is in place or its version was active before.
  predicate Served(r: Dir, versions: map<string, nat>, f: Inode) {
    DestName(f) in r || AlreadyActive(versions, f)
  }

  lemma {:induction false} NothingLeftToStage(r: Dir, versions: map<string, nat>, files: seq<Inode>)
    requires AllApexes(files) && forall f | f in files :: Served(r, versions, f)
    ensures ToStage(r, versions, files) == []
  {
    if files != [] {
      var init, last := files[..|files| - 1], files[|files| - 1];
      assert forall f | f in init :: f in files;
      NothingLeftToStage(r, versions, init);
      assert last in files;
    }
  }

  /** Theorem: with distinct packages every request is granted, no other version of a newly
      staged package stays, and the same call again would stage nothing. */
  lemma DistinctPackagesAllServed(active: Dir, versions: map<string, nat>, files: seq<Inode>)
    requires Canonical(active) && AllApexes(files) && DistinctPackages(files)
    ensures var staged := ToStage(active, versions, files);
      && AllApexes(staged)
      && (Linkable(active, staged) ==>
          var r := StageResult(active, staged);
          && (forall f | f in files :: Served(r, versions, f))
          && (forall f, n | f in staged && n in r && IsApex(r[n]) && PackageOf(r[n]) == PackageOf(f) :: r[n] == f)
          && ToStage(r, versions, files) == [])
  {
    var staged := ToStage(active, versions, files);
    assert forall i | 0 <= i < |staged| :: staged[i] in files;
    if Linkable(active, staged) {
      var r := StageResult(active, staged);
      StageResultContents(active, staged);
      StageResultPackages(active, staged, r);
      forall f | f in files && PackageOf(f) in PackagesOf(staged)
        ensures f in staged
      {
        var g :| g in staged && PackageOf(g) == PackageOf(f);
        SamePackageSameFile(files, f, g);
      }
      forall f | f in files
        ensures Served(r, versions, f)
      {
        StagingServesRequest(active, versions, files, f);
      }
      NothingLeftToStage(r, versions, files);
      forall f, n | f in staged && n in r && IsApex(r[n]) && PackageOf(r[n]) == PackageOf(f)
        ensures r[n] == f
      {
        assert PackageOf(f) in PackagesOf(staged);
        SamePackageSameFile(files, f, r[n]);
      }
    }
  }

  lemma SamePackageSameFile(files: seq<Inode>, f: Inode, g: Inode)
    requires DistinctPackages(files) && f in files && IsApex(f)
    ensures g in files && IsApex(g) && PackageOf(g) == PackageOf(f) ==> f == g
  {
  }

  /** Without that, a request can undo itself: version 1 is in place, versions 1 and 2 are
      asked for, and version 1 is gone afterwards. */
  lemma TwoVersionsInOneCall(f: Inode, g: Inode)
    requires f.manifest == Some(Manifest("a", 1)) && g.manifest == Some(Manifest("a", 2))
    ensures var active := map[DestName(f) := f];
      var staged := ToStage(active, map[], [f, g]);
      staged == [g] && !Served(StageResult(active, staged), map[], f)
  {
    var active := map[DestName(f) := f];
    if DestName(f) == DestName(g) {
      ApexFileNameInjective(f.manifest.value, g.manifest.value);
    }
    assert [f, g][..1] == [f] && [f][..0] == [];
    assert ToStage(active, map[], [f]) == [];
    assert ToStage(active, map[], [f, g]) == [g];
    assert g in [g];
    assert PackageOf(g) in PackagesOf([g]);
    assert DestName(f) !in DestNames([g]);
    assert [g][..0] == [];
    assert LinkAll(active, [g]) == active[DestName(g) := g];
  }
}
