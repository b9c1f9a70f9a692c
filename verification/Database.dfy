// The table of mounted packages (apex_database.h).  A failed CHECK aborts apexd; the
// operations that can abort report it with ok == false.
module Database {
  import opened Names

  datatype MountedApexData = MountedApexData(loopName: string, fullPath: string, mountPoint: string, deviceName: string)

  type Entries = map<MountedApexData, bool>  // the flag marks the latest version
  type Table = map<string, Entries>

  /** Order */

  // a.compare(b) < 0
  predicate StringLess(a: string, b: string) {
    if b == [] then false
    else if a == [] then true
    else if a[0] != b[0] then a[0] < b[0]
    else StringLess(a[1..], b[1..])
  }

  // operator<
  predicate Less(a: MountedApexData, b: MountedApexData) {
    if StringLess(a.loopName, b.loopName) then true
    else if StringLess(b.loopName, a.loopName) then false
    else if StringLess(a.fullPath, b.fullPath) then true
    else if StringLess(b.fullPath, a.fullPath) then false
    else if StringLess(a.mountPoint, b.mountPoint) then true
    else if StringLess(b.mountPoint, a.mountPoint) then false
    else StringLess(a.deviceName, b.deviceName)
  }

  lemma {:induction false} StringLessTrichotomy(a: string, b: string)
    ensures !(StringLess(a, b) && StringLess(b, a))
    ensures !StringLess(a, b) && !StringLess(b, a) <==> a == b
  {
    if a != [] && b != [] && a[0] == b[0] {
      StringLessTrichotomy(a[1..], b[1..]);
      assert a == [a[0]] + a[1..] && b == [b[0]] + b[1..];
    }
  }

  /** The order on names is decided by the first character that differs, and a proper prefix comes first. */
  lemma {:induction false} StringLessAt(a: string, b: string, k: nat)
    requires k <= |a| && k <= |b| && a[..k] == b[..k]
    ensures k == |a| ==> (StringLess(a, b) <==> k < |b|)
    ensures k < |a| && k < |b| && a[k] != b[k] ==> (StringLess(a, b) <==> a[k] < b[k])
  {
    if k > 0 {
      assert a[0] == a[..k][0] && b[0] == b[..k][0];
      assert a[1..][..k - 1] == a[..k][1..] && b[1..][..k - 1] == b[..k][1..];
      StringLessAt(a[1..], b[1..], k - 1);
    }
  }

  lemma {:induction false} StringLessTransitive(a: string, b: string, c: string)
    requires StringLess(a, b) && StringLess(b, c)
    ensures StringLess(a, c)
  {
    if a != [] && a[0] == b[0] == c[0] {
      StringLessTransitive(a[1..], b[1..], c[1..]);
    }
  }

  /** Theorem: keying a map by this order loses no entry: only equal records are equivalent. */
  lemma LessTrichotomy(a: MountedApexData, b: MountedApexData)
    ensures !(Less(a, b) && Less(b, a))
    ensures !Less(a, b) && !Less(b, a) <==> a == b
  {
    StringLessTrichotomy(a.loopName, b.loopName);
    StringLessTrichotomy(a.fullPath, b.fullPath);
    StringLessTrichotomy(a.mountPoint, b.mountPoint);
    StringLessTrichotomy(a.deviceName, b.deviceName);
  }

  lemma FieldTransitive(a: string, b: string, c: string)
    ensures !StringLess(b, a) && !StringLess(c, b) ==> !StringLess(c, a)
    ensures (StringLess(a, b) && !StringLess(c, b)) || (!StringLess(b, a) && StringLess(b, c)) ==> StringLess(a, c)
  {
    StringLessTrichotomy(a, b);
    StringLessTrichotomy(b, c);
    StringLessTrichotomy(a, c);
    if StringLess(a, b) && StringLess(b, c) {
      StringLessTransitive(a, b, c);
    }
  }

  lemma LessTransitive(a: MountedApexData, b: MountedApexData, c: MountedApexData)
    requires Less(a, b) && Less(b, c)
    ensures Less(a, c)
  {
    LessTrichotomy(a, b);
    LessTrichotomy(b, c);
    FieldTransitive(a.loopName, b.loopName, c.loopName);
    FieldTransitive(a.fullPath, b.fullPath, c.fullPath);
    FieldTransitive(a.mountPoint, b.mountPoint, c.mountPoint);
    FieldTransitive(a.deviceName, b.deviceName, c.deviceName);
    StringLessTrichotomy(a.loopName, c.loopName);
    StringLessTrichotomy(a.fullPath, c.fullPath);
    StringLessTrichotomy(a.mountPoint, c.mountPoint);
    hide StringLess;
  }

  // The entry that an iteration over the map reaches first.
  predicate IsLeast(s: set<MountedApexData>, d: MountedApexData) {
    d in s && forall e | e in s :: e == d || Less(d, e)
  }

  lemma {:induction false} HasLeast(s: set<MountedApexData>)
    requires s != {}
    ensures exists d :: IsLeast(s, d)
  {
    var e :| e in s;
    if s == {e} {
      assert IsLeast(s, e);
    } else {
      var rest := s - {e};
      HasLeast(rest);
      var d :| IsLeast(rest, d);
      LessTrichotomy(d, e);
      if Less(d, e) {
        assert IsLeast(s, d);
      } else {
        forall f | f in rest
          ensures Less(e, f)
        {
          if f != d {
            LessTransitive(e, d, f);
          }
        }
        assert IsLeast(s, e);
      }
    }
  }

  lemma LeastIsUnique(s: set<MountedApexData>, d: MountedApexData, e: MountedApexData)
    requires IsLeast(s, d) && IsLeast(s, e)
    ensures d == e
  {
    LessTrichotomy(d, e);
  }

  /** Contents */

  predicate Has(t: Table, p: string, d: MountedApexData) {
    p in t && d in t[p]
  }

  predicate Latest(t: Table, p: string, d: MountedApexData) {
    Has(t, p, d) && t[p][d]
  }

  function EntriesOf(t: Table, p: string): Entries {
    if p in t then t[p] else map[]
  }

  function Pairs(t: Table): set<(string, MountedApexData)> {
    set p, d | p in t && d in t[p] :: (p, d)
  }

  // The entries with a given path; the iteration order decides between several.
  function Matching(m: Entries, path: string): set<MountedApexData> {
    set d | d in m && d.fullPath == path
  }

  function WithEntry(t: Table, p: string, d: MountedApexData, latest: bool): Table {
    t[p := EntriesOf(t, p)[d := latest]]
  }

  function WithoutEntry(t: Table, p: string, d: MountedApexData): Table {
    t[p := EntriesOf(t, p) - {d}]
  }

  function OnlyLatest(m: Entries, d: MountedApexData): Entries {
    map e | e in m :: e == d
  }

  function NoneLatest(m: Entries): Entries {
    map e | e in m :: false
  }

  /** Consistency */

  ghost predicate AtMostOneLatest(m: Entries) {
    forall d, e | d in m && e in m && m[d] && m[e] :: d == e
  }

  ghost predicate EachAtMostOneLatest(t: Table) {
    forall p | p in t :: AtMostOneLatest(t[p])
  }

  // Two entries that share a loop or dm name, which is not the empty one.
  predicate Clash(d: MountedApexData, e: MountedApexData) {
    (d.loopName == e.loopName && d.loopName != "") || (d.deviceName == e.deviceName && d.deviceName != "")
  }

  ghost predicate NoClash(s: set<(string, MountedApexData)>) {
    forall x, y | x in s && y in s && Clash(x.1, y.1) :: x == y
  }

  ghost predicate UniqueLoopDm(t: Table) {
    NoClash(Pairs(t))
  }

  function UsedLoops(s: set<(string, MountedApexData)>): set<string> {
    set x | x in s && x.1.loopName != "" :: x.1.loopName
  }

  function UsedDms(s: set<(string, MountedApexData)>): set<string> {
    set x | x in s && x.1.deviceName != "" :: x.1.deviceName
  }

  lemma OneMoreUsed(s: set<(string, MountedApexData)>, x: (string, MountedApexData))
    requires x !in s
    ensures UsedLoops(s + {x}) == if x.1.loopName == "" then UsedLoops(s) else UsedLoops(s) + {x.1.loopName}
    ensures UsedDms(s + {x}) == if x.1.deviceName == "" then UsedDms(s) else UsedDms(s) + {x.1.deviceName}
    ensures "" !in UsedLoops(s) && "" !in UsedDms(s)
    ensures NoClash(s + {x}) <==> NoClash(s) && x.1.loopName !in UsedLoops(s) && x.1.deviceName !in UsedDms(s)
  {
    assert forall y | y in s :: Clash(x.1, y.1) <==> Clash(y.1, x.1);
    if x.1.loopName in UsedLoops(s) {
      var y :| y in s && y.1.loopName == x.1.loopName != "";
      assert Clash(x.1, y.1);
    }
    if x.1.deviceName in UsedDms(s) {
      var y :| y in s && y.1.deviceName == x.1.deviceName != "";
      assert Clash(x.1, y.1);
    }
  }

  lemma SubsetNoClash(s: set<(string, MountedApexData)>, all: set<(string, MountedApexData)>)
    requires s <= all
    ensures NoClash(all) ==> NoClash(s)
  {
  }

  lemma SmallSet(s: set<MountedApexData>)
    ensures |s| <= 1 <==> forall d, e | d in s && e in s :: d == e
  {
    if d, e :| d in s && e in s && d != e {
      assert |s - {d} - {e}| == |s| - 2;
    } else if s != {} {
      var d :| d in s;
      assert s == {d};
    }
  }

  // The counting loop of CheckAtMostOneLatest for one package.
  method CountLatest(m: Entries) returns (count: nat)
    ensures count <= 1 <==> AtMostOneLatest(m)
  {
    count := 0;
    var left := m.Keys;
    ghost var latest: set<MountedApexData> := {};
    while left != {}
      invariant left <= m.Keys
      invariant latest == set d | d in m && d !in left && m[d]
      invariant count == |latest|
      decreases left
    {
      var d :| d in left;
      if m[d] {
        count := count + 1;
        latest := latest + {d};
      }
      left := left - {d};
    }
    SmallSet(latest);
    assert latest == set d | d in m && m[d];
    assert forall d :: d in latest <==> d in m && m[d];
  }

  // unordered_set::insert, for a name that is not empty.
  method Insert(names: set<string>, name: string) returns (isNew: bool, names': set<string>)
    ensures isNew <==> name == "" || name !in names
    ensures names' == if name == "" then names else names + {name}
  {
    isNew := name == "" || name !in names;
    names' := if name == "" then names else names + {name};
  }

  // The loop of CheckUniqueLoopDm.
  method AllNamesNew(entries: set<(string, MountedApexData)>) returns (ok: bool)
    ensures ok <==> NoClash(entries)
  {
    hide *;
    var loops, dms := {}, {};
    var left := entries;
    ghost var done: set<(string, MountedApexData)> := {};
    NothingUsed();
    ok := true;
    while left != {} && ok
      invariant left <= entries && done <= entries && left !! done
      invariant ok ==> left + done == entries && loops == UsedLoops(done) && dms == UsedDms(done) && NoClash(done)
      invariant !ok ==> !NoClash(entries)
      decreases left
    {
      var x :| x in left;
      OneMoreUsed(done, x);
      SubsetNoClash(done + {x}, entries);
      var isNew, isNewToo;
      isNew, loops := Insert(loops, x.1.loopName);
      isNewToo, dms := Insert(dms, x.1.deviceName);
      ok := isNew && isNewToo;
      left, done := left - {x}, done + {x};
    }
    assert ok ==> done == entries;
  }

  lemma NothingUsed()
    ensures UsedLoops({}) == {} && UsedDms({}) == {} && NoClash({})
  {
  }

  class MountedApexDatabase {
    var mounted: Table  // mounted_apexes_

    ghost predicate Consistent()
      reads this
    {
      EachAtMostOneLatest(mounted) && UniqueLoopDm(mounted)
    }

    constructor ()
      ensures mounted == map[] && Consistent()
    {
      mounted := map[];
    }

    method CheckAtMostOneLatest() returns (ok: bool)
      ensures ok <==> EachAtMostOneLatest(mounted)
    {
      var left := mounted.Keys;
      while left != {}
        invariant left <= mounted.Keys
        invariant forall p | p in mounted && p !in left :: AtMostOneLatest(mounted[p])
        decreases left
      {
        var p :| p in left;
        var count := CountLatest(mounted[p]);
        if count > 1 {
          return false;
        }
        left := left - {p};
      }
      ok := true;
    }

    method CheckUniqueLoopDm() returns (ok: bool)
      ensures ok <==> UniqueLoopDm(mounted)
    {
      ok := AllNamesNew(Pairs(mounted));
    }

    method AddMountedApex(package: string, latest: bool, data: MountedApexData) returns (ok: bool)
      modifies this
      ensures var t := WithEntry(old(mounted), package, data, latest);
        && (ok <==> !Has(old(mounted), package, data) && EachAtMostOneLatest(t) && UniqueLoopDm(t))
        && (ok ==> mounted == t && Consistent())
    {
      var before := mounted;
      if package !in mounted {
        mounted := mounted[package := map[]];
      }
      if data in mounted[package] {
        return false;
      }
      mounted := mounted[package := mounted[package][data := latest]];
      assert mounted == WithEntry(before, package, data, latest);
      ok := CheckAtMostOneLatest();
      if ok {
        ok := CheckUniqueLoopDm();
      }
    }

    // The iteration that RemoveMountedApex and SetLatest share: the first entry with that path.
    method FindFirst(m: Entries, path: string) returns (r: Option<MountedApexData>)
      ensures r.None? ==> Matching(m, path) == {}
      ensures r.Some? ==> IsLeast(Matching(m, path), r.value)
    {
      var left := m.Keys;
      while left != {}
        invariant left <= m.Keys
        invariant forall d | d in m && d !in left :: d.fullPath != path
        decreases left
      {
        HasLeast(left);
        var d :| d in left && IsLeast(left, d);
        if d.fullPath == path {
          return Some(d);
        }
        left := left - {d};
      }
      r := None;
    }

    method RemoveMountedApex(package: string, path: string)
      modifies this
      ensures var matching := Matching(EntriesOf(old(mounted), package), path);
        && (matching == {} ==> mounted == old(mounted))
        && (forall d | IsLeast(matching, d) :: mounted == WithoutEntry(old(mounted), package, d))
      ensures old(Consistent()) ==> Consistent()
    {
      if package !in mounted {
        return;
      }
      var r := FindFirst(mounted[package], path);
      if r.Some? {
        forall d | IsLeast(Matching(mounted[package], path), d)
          ensures d == r.value
        {
          LeastIsUnique(Matching(mounted[package], path), d, r.value);
        }
        RemovalKeepsConsistency(mounted, package, r.value);
        mounted := mounted[package := mounted[package] - {r.value}];
      }
    }

    // A missing package or path is fatal.
    method SetLatest(package: string, path: string) returns (ok: bool)
      modifies this
      ensures var matching := Matching(EntriesOf(old(mounted), package), path);
        && (ok <==> matching != {})
        && (!ok ==> mounted == old(mounted))
        && (forall d | IsLeast(matching, d) :: mounted == old(mounted)[package := OnlyLatest(EntriesOf(old(mounted), package), d)])
      ensures old(Consistent()) ==> Consistent()
    {
      if package !in mounted {
        return false;
      }
      var before := mounted;
      var r := FindFirst(mounted[package], path);
      if r.None? {
        return false;
      }
      forall d | IsLeast(Matching(mounted[package], path), d)
        ensures d == r.value
      {
        LeastIsUnique(Matching(mounted[package], path), d, r.value);
      }
      var m := mounted[package][r.value := true];
      var left := m.Keys;
      while left != {}
        invariant left <= m.Keys == before[package].Keys
        invariant m[r.value]
        invariant forall e | e in m && e !in left && e != r.value :: !m[e]
        decreases left
      {
        var e :| e in left;
        if e != r.value {
          m := m[e := false];
        }
        left := left - {e};
      }
      assert m == OnlyLatest(before[package], r.value);
      SameEntriesSameUniqueness(mounted, package, m);
      mounted := mounted[package := m];
      ok := true;
    }

    method UnsetLatestForall(package: string)
      modifies this
      ensures mounted == if package in old(mounted) then old(mounted)[package := NoneLatest(old(mounted)[package])] else old(mounted)
      ensures old(Consistent()) ==> Consistent()
    {
      if package !in mounted {
        return;
      }
      var before := mounted[package];
      var m := before;
      var left := m.Keys;
      while left != {}
        invariant left <= m.Keys == before.Keys
        invariant forall e | e in m && e !in left :: !m[e]
        decreases left
      {
        var e :| e in left;
        m := m[e := false];
        left := left - {e};
      }
      assert m == NoneLatest(before);
      SameEntriesSameUniqueness(mounted, package, m);
      mounted := mounted[package := m];
    }
  }

  lemma RemovalKeepsConsistency(t: Table, p: string, d: MountedApexData)
    ensures EachAtMostOneLatest(t) ==> EachAtMostOneLatest(WithoutEntry(t, p, d))
    ensures UniqueLoopDm(t) ==> UniqueLoopDm(WithoutEntry(t, p, d))
  {
    assert Pairs(WithoutEntry(t, p, d)) <= Pairs(t);
  }

  lemma SameEntriesSameUniqueness(t: Table, p: string, m: Entries)
    requires p in t && m.Keys == t[p].Keys
    ensures UniqueLoopDm(t[p := m]) <==> UniqueLoopDm(t)
  {
    assert Pairs(t[p := m]) == Pairs(t);
  }
}
